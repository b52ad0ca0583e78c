/** The Sudoku rule, stated on a 9x9 grid of digits where 0 is an empty cell. */
module SudokuRules {

  predicate IsGrid(g: seq<seq<int>>) {
    && |g| == 9
    && (forall i :: 0 <= i < 9 ==> |g[i]| == 9)
    && (forall i, j :: 0 <= i < 9 && 0 <= j < 9 ==> 0 <= g[i][j] <= 9)
  }

  type Grid = g: seq<seq<int>> | IsGrid(g) witness seq(9, i => seq(9, j => 0))

  predicate OnBoard(i: int, j: int) {
    0 <= i < 9 && 0 <= j < 9
  }

  /** Two cells see each other when they share a row, a column or a 3x3 box. */
  predicate Peers(i: int, j: int, k: int, l: int) {
    (i, j) != (k, l) && (i == k || j == l || (i / 3 == k / 3 && j / 3 == l / 3))
  }

  /** No two peers hold the same non-zero digit. */
  ghost predicate Consistent(g: Grid) {
    forall i, j, k, l :: OnBoard(i, j) && OnBoard(k, l) && Peers(i, j, k, l) && g[i][j] != 0 ==> g[i][j] != g[k][l]
  }

  ghost predicate Full(g: Grid) {
    forall i, j :: OnBoard(i, j) ==> g[i][j] != 0
  }

  /** The 27 units, with the order in which the verifiers walk through each of them. */
  datatype Unit = Row(n: int) | Col(n: int) | Box(n: int, m: int)

  predicate IsUnit(u: Unit) {
    match u
    case Row(i) => 0 <= i < 9
    case Col(j) => 0 <= j < 9
    case Box(b, c) => 0 <= b < 3 && 0 <= c < 3
  }

  function CellOf(u: Unit, t: int): (c: (int, int))
    requires IsUnit(u) && 0 <= t < 9
    ensures OnBoard(c.0, c.1)
  {
    match u
    case Row(i) => (i, t)
    case Col(j) => (t, j)
    case Box(b, c) => (3 * b + t / 3, 3 * c + t % 3)
  }

  function Values(g: Grid, u: Unit): (s: seq<int>)
    requires IsUnit(u)
    ensures |s| == 9
  {
    seq(9, t requires 0 <= t < 9 => g[CellOf(u, t).0][CellOf(u, t).1])
  }

  /** Some non-zero digit occurs twice in the list. */
  predicate Repeats(s: seq<int>) {
    s != [] && (Repeats(s[..|s| - 1]) || (s[|s| - 1] != 0 && s[|s| - 1] in s[..|s| - 1]))
  }

  lemma {:induction false} RepeatsMeaning(s: seq<int>)
    ensures Repeats(s) <==> exists a, b :: 0 <= a < b < |s| && s[a] == s[b] != 0
  {
    if s != [] {
      var front, n := s[..|s| - 1], |s| - 1;
      RepeatsMeaning(front);
      if Repeats(front) {
        var a, b :| 0 <= a < b < |front| && front[a] == front[b] != 0;
        assert s[a] == s[b];
      } else if s[n] != 0 && s[n] in front {
        var a :| 0 <= a < n && front[a] == s[n];
        assert s[a] == s[n];
      } else {
        forall a, b | 0 <= a < b < |s| ensures !(s[a] == s[b] != 0) {
          if b < n {
            assert front[a] == s[a] && front[b] == s[b];
          } else {
            assert s[a] in front;
          }
        }
      }
    }
  }

  lemma DivMod3(x: int, y: int)
    requires 0 <= y < 3
    ensures (3 * x + y) / 3 == x && (3 * x + y) % 3 == y
  {
  }

  /** Where the walk through a box meets cell (i, j). */
  lemma PlaceInBox(i: int, j: int) returns (t: int)
    requires OnBoard(i, j)
    ensures 0 <= t < 9 && CellOf(Box(i / 3, j / 3), t) == (i, j)
  {
    var x, y := i - 3 * (i / 3), j - 3 * (j / 3);
    t := 3 * x + y;
    DivMod3(x, y);
  }

  /** Peers are visited by a common unit, at different times; and the other way round. */
  lemma PeersShareUnit(i: int, j: int, k: int, l: int) returns (u: Unit, s: int, t: int)
    requires OnBoard(i, j) && OnBoard(k, l) && Peers(i, j, k, l)
    ensures IsUnit(u) && 0 <= s < 9 && 0 <= t < 9 && s != t
    ensures CellOf(u, s) == (i, j) && CellOf(u, t) == (k, l)
  {
    if i == k {
      u, s, t := Row(i), j, l;
    } else if j == l {
      u, s, t := Col(j), i, k;
    } else {
      u := Box(i / 3, j / 3);
      s := PlaceInBox(i, j);
      t := PlaceInBox(k, l);
    }
  }

  lemma UnitCellsArePeers(u: Unit, s: int, t: int)
    requires IsUnit(u) && 0 <= s < t < 9
    ensures Peers(CellOf(u, s).0, CellOf(u, s).1, CellOf(u, t).0, CellOf(u, t).1)
  {
    match u
    case Row(_) =>
    case Col(_) =>
    case Box(b, c) =>
      DivMod3(b, s / 3);
      DivMod3(b, t / 3);
      DivMod3(c, s % 3);
      DivMod3(c, t % 3);
      assert s == 3 * (s / 3) + s % 3 && t == 3 * (t / 3) + t % 3;
  }

  /** Checking the 27 units one by one decides the rule on pairs of cells. */
  lemma ConsistentByUnits(g: Grid)
    ensures Consistent(g) <==> forall u :: IsUnit(u) ==> !Repeats(Values(g, u))
  {
    if Consistent(g) {
      forall u | IsUnit(u) ensures !Repeats(Values(g, u)) {
        RepeatsMeaning(Values(g, u));
        forall s, t | 0 <= s < t < 9 && Values(g, u)[s] != 0 ensures Values(g, u)[s] != Values(g, u)[t] {
          UnitCellsArePeers(u, s, t);
        }
      }
    }
    if forall u :: IsUnit(u) ==> !Repeats(Values(g, u)) {
      forall i, j, k, l | OnBoard(i, j) && OnBoard(k, l) && Peers(i, j, k, l) && g[i][j] != 0
        ensures g[i][j] != g[k][l]
      {
        var u, s, t := PeersShareUnit(i, j, k, l);
        var vs := Values(g, u);
        assert vs[s] == g[i][j] && vs[t] == g[k][l];
        RepeatsMeaning(vs);
        var x, y := vs[s], vs[t];
        assert !(x == y && x != 0);
      }
    }
  }

  const DIGITS: set<int> := {1, 2, 3, 4, 5, 6, 7, 8, 9}

  function Elements(s: seq<int>): set<int> {
    set v | v in s
  }

  lemma {:induction false} DistinctCount(s: seq<int>)
    requires forall a, b :: 0 <= a < b < |s| ==> s[a] != s[b]
    ensures |Elements(s)| == |s|
    ensures forall v :: v in Elements(s) ==> multiset(s)[v] == 1
  {
    if s != [] {
      var front, last := s[..|s| - 1], s[|s| - 1];
      DistinctCount(front);
      assert s == front + [last];
      assert Elements(s) == Elements(front) + {last};
      assert last !in front;
    }
  }

  lemma SubsetOfSameSize(a: set<int>, b: set<int>)
    requires a <= b && |a| == |b|
    ensures a == b
  {
    assert b == a + (b - a);
    assert |b| == |a| + |b - a|;
  }

  /** Nine places, nine digits, none repeated: every digit is there exactly once. */
  lemma Pigeonhole(s: seq<int>)
    requires |s| == 9 && (forall t :: 0 <= t < 9 ==> 1 <= s[t] <= 9) && !Repeats(s)
    ensures forall v :: v in DIGITS ==> multiset(s)[v] == 1
  {
    RepeatsMeaning(s);
    DistinctCount(s);
    forall v | v in Elements(s) ensures v in DIGITS {
    }
    SubsetOfSameSize(Elements(s), DIGITS);
  }

  /** A full board that obeys the rule is solved: each unit is a permutation of 1..9. */
  lemma FullAndConsistentIsSolved(g: Grid, u: Unit)
    requires Full(g) && Consistent(g) && IsUnit(u)
    ensures forall v :: v in DIGITS ==> multiset(Values(g, u))[v] == 1
  {
    ConsistentByUnits(g);
    forall t | 0 <= t < 9 ensures 1 <= Values(g, u)[t] <= 9 {
      var c := CellOf(u, t);
      assert OnBoard(c.0, c.1);
    }
    Pigeonhole(Values(g, u));
  }
}
