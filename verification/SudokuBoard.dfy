/** The set of digits seen in one unit, kept in the low bits of a short. The shorts are
    never negative here, so >> is repeated halving. */
module SudokuMask {

  /** mask >> k */
  function ShiftRight(mask: nat, k: nat): nat {
    if k == 0 then mask else ShiftRight(mask / 2, k - 1)
  }

  /** mask | (1 << k) */
  function SetBit(mask: nat, k: nat): nat {
    if k > 0 then 2 * SetBit(mask / 2, k - 1) + mask % 2
    else if mask % 2 == 1 then mask
    else mask + 1
  }

  predicate Bit(mask: nat, k: nat) {
    ShiftRight(mask, k) % 2 == 1
  }

  lemma {:induction false} SetBitSetsOne(mask: nat, k: nat, l: nat)
    ensures Bit(SetBit(mask, k), l) <==> k == l || Bit(mask, l)
  {
    if k > 0 && l > 0 {
      SetBitSetsOne(mask / 2, k - 1, l - 1);
      assert SetBit(mask, k) / 2 == SetBit(mask / 2, k - 1);
    } else if l > 0 {
      assert SetBit(mask, k) / 2 == mask / 2;
    }
  }

  lemma {:induction false} ZeroHasNoBits(k: nat)
    ensures !Bit(0, k)
  {
    if k > 0 {
      ZeroHasNoBits(k - 1);
    }
  }

  /** Digit v lives in bit 9-v. */
  predicate Seen(mask: nat, v: int)
    requires 0 <= v <= 9
  {
    Bit(mask, 9 - v)
  }

  /** The mask holds exactly the non-zero values read so far; bit 9 is never set. */
  ghost predicate Records(mask: nat, values: seq<int>) {
    forall v :: 0 <= v <= 9 ==> (Seen(mask, v) <==> v != 0 && v in values)
  }

  lemma EmptyRecords()
    ensures Records(0, [])
  {
    forall v | 0 <= v <= 9 ensures !Seen(0, v) {
      ZeroHasNoBits(9 - v);
    }
  }

  lemma RecordsSnoc(mask: nat, values: seq<int>, value: int)
    requires Records(mask, values) && 0 <= value <= 9
    ensures Records(if value == 0 || Seen(mask, value) then mask else SetBit(mask, 9 - value), values + [value])
  {
    hide SetBit, ShiftRight;
    var marked := if value == 0 || Seen(mask, value) then mask else SetBit(mask, 9 - value);
    assert Seen(mask, value) <==> value != 0 && value in values;
    forall v | 0 <= v <= 9 ensures Seen(marked, v) <==> v != 0 && v in values + [value] {
      assert Seen(mask, v) <==> v != 0 && v in values;
      assert v in values + [value] <==> v in values || v == value;
      SetBitSetsOne(mask, 9 - value, 9 - v);
    }
    assert Records(marked, values + [value]);
  }
}

/** The board object: two flat character buffers and a sticky status (board.c). */
module SudokuBoard {
  import opened Text
  import opened SudokuRules
  import opened SudokuMask
  import opened SudokuGame

  const BOARD_SIZE := 200
  const CHARS_PER_ROW := 18
  const TEXT_SIZE := 162

  /** Cells sit at the even offsets of the text; odd offsets are separators. */
  predicate IsCell(p: int) {
    0 <= p < TEXT_SIZE && p % 2 == 0
  }

  /** A buffer that holds a 9x18 board followed by NULs. The last newline may be missing. */
  ghost predicate IsBoardText(t: string) {
    && |t| == BOARD_SIZE
    && (forall p :: IsCell(p) ==> '0' <= t[p] <= '9')
    && (forall p :: 0 <= p < TEXT_SIZE - 1 ==> t[p] != NUL)
    && (forall p :: TEXT_SIZE <= p < BOARD_SIZE ==> t[p] == NUL)
  }

  /** The offset of cell (i, j), 0-based. */
  function Offset(i: int, j: int): int {
    CHARS_PER_ROW * i + 2 * j
  }

  /** The text shows this grid at its cell offsets. */
  ghost predicate Shows(t: string, g: Grid)
    requires |t| == BOARD_SIZE
  {
    forall i, j :: OnBoard(i, j) ==> IsCell(Offset(i, j)) && t[Offset(i, j)] as int - 48 == g[i][j]
  }

  /** A text shows one grid only. */
  lemma ShowsOne(t: string, a: Grid, b: Grid)
    requires |t| == BOARD_SIZE && Shows(t, a) && Shows(t, b)
    ensures a == b
  {
    forall i | 0 <= i < 9 ensures a[i] == b[i] {
      assert forall j :: OnBoard(i, j) ==> a[i][j] == t[Offset(i, j)] as int - 48 == b[i][j];
    }
  }

  ghost function GridOf(t: string): (g: Grid)
    requires |t| == BOARD_SIZE && forall p :: IsCell(p) ==> '0' <= t[p] <= '9'
    ensures Shows(t, g)
  {
    var digit := (i, j) => if IsCell(Offset(i, j)) then t[Offset(i, j)] as int - 48 else 0;
    var g := seq(9, i => seq(9, j => digit(i, j)));
    assert forall i, j :: OnBoard(i, j) ==> IsCell(Offset(i, j)) && g[i][j] == digit(i, j);
    g
  }

  lemma GridOfText(t: string, text: string)
    requires TEXT_SIZE - 1 <= |text| <= TEXT_SIZE && |t| == BOARD_SIZE && t[..|text|] == text
    requires forall p :: IsCell(p) ==> '0' <= t[p] <= '9'
    ensures forall i, j :: OnBoard(i, j) ==> GridOf(t)[i][j] == text[18 * i + 2 * j] as int - 48
  {
    hide GridOf;
    forall i, j | OnBoard(i, j) ensures GridOf(t)[i][j] == text[18 * i + 2 * j] as int - 48 {
      assert IsCell(Offset(i, j)) && t[..|text|][Offset(i, j)] == t[Offset(i, j)];
    }
  }

  // ---- Which units a verifier has gone through ----

  datatype Kind = Rows | Cols | Boxes

  function UnitNo(kind: Kind, n: int): (u: Unit)
    requires 0 <= n < 9
    ensures IsUnit(u)
  {
    match kind
    case Rows => Row(n)
    case Cols => Col(n)
    case Boxes => Box(n / 3, n % 3)
  }

  /** One of the first n units of this kind repeats a digit. */
  predicate AnyRepeats(g: Grid, kind: Kind, n: int)
    requires 0 <= n <= 9
  {
    n > 0 && (AnyRepeats(g, kind, n - 1) || Repeats(Values(g, UnitNo(kind, n - 1))))
  }

  lemma {:induction false} AnyRepeatsMeaning(g: Grid, kind: Kind, n: int)
    requires 0 <= n <= 9
    ensures AnyRepeats(g, kind, n) <==> exists k :: 0 <= k < n && Repeats(Values(g, UnitNo(kind, k)))
  {
    if n > 0 {
      AnyRepeatsMeaning(g, kind, n - 1);
    }
  }

  /** The three verifiers together look at every unit. */
  lemma AllUnits(g: Grid)
    ensures Consistent(g) <==> !AnyRepeats(g, Rows, 9) && !AnyRepeats(g, Cols, 9) && !AnyRepeats(g, Boxes, 9)
  {
    ConsistentByUnits(g);
    AnyRepeatsMeaning(g, Rows, 9);
    AnyRepeatsMeaning(g, Cols, 9);
    AnyRepeatsMeaning(g, Boxes, 9);
    forall u | IsUnit(u) && Repeats(Values(g, u))
      ensures AnyRepeats(g, Rows, 9) || AnyRepeats(g, Cols, 9) || AnyRepeats(g, Boxes, 9)
    {
      match u
      case Row(i) => assert UnitNo(Rows, i) == u;
      case Col(j) => assert UnitNo(Cols, j) == u;
      case Box(b, c) =>
        DivMod3(b, c);
        assert UnitNo(Boxes, 3 * b + c) == u;
    }
  }

  function Flag(s: Status, bad: bool): Status {
    if bad then BoardInvalid else s
  }

  lemma ScanStep(mask: nat, values: seq<int>, t: int)
    requires 0 <= t < |values| && Records(mask, values[..t]) && 0 <= values[t] <= 9
    ensures Records(if values[t] == 0 || Seen(mask, values[t]) then mask else SetBit(mask, 9 - values[t]), values[..t + 1])
    ensures Repeats(values[..t + 1]) <==> Repeats(values[..t]) || Seen(mask, values[t])
  {
    assert values[..t + 1] == values[..t] + [values[t]];
    assert values[..t + 1][..t] == values[..t];
    RecordsSnoc(mask, values[..t], values[t]);
  }

  /** A walk through one unit, begun with this status after the units before it. */
  datatype Scan = Scan(unit: Unit, initial: Status, before: bool)

  class Board {
    const board: array<char>
    const boardOriginal: array<char>
    var status: Status
    ghost var clues: Grid // the digits boardOriginal shows
    ghost var cells: Grid // the digits board shows

    ghost predicate Valid()
      reads this`clues, this`cells, board, boardOriginal
    {
      && board != boardOriginal
      && board.Length == BOARD_SIZE && boardOriginal.Length == BOARD_SIZE
      && IsBoardText(boardOriginal[..]) && Shows(boardOriginal[..], clues)
      && IsBoardText(board[..]) && Shows(board[..], cells)
      && (forall p :: 0 <= p < BOARD_SIZE && (IsCell(p) ==> boardOriginal[p] != '0') ==> board[p] == boardOriginal[p])
    }

    /** The abstract game this object stands for. */
    ghost function View(): Game
      reads this
    {
      Game(clues, cells, status)
    }

    /** board_read: the file's text goes into both buffers, which start zeroed. */
    constructor Read(text: string)
      requires TEXT_SIZE - 1 <= |text| <= TEXT_SIZE
      requires forall p :: 0 <= p < |text| ==> text[p] != NUL && (IsCell(p) ==> '0' <= text[p] <= '9')
      ensures Valid() && fresh(board) && fresh(boardOriginal)
      ensures boardOriginal[..|text|] == text
      ensures View() == Start(clues)
      ensures forall i, j :: OnBoard(i, j) ==> clues[i][j] == text[18 * i + 2 * j] as int - 48
    {
      hide GridOf, Shows;
      board := new char[BOARD_SIZE](_ => NUL);
      boardOriginal := new char[BOARD_SIZE](_ => NUL);
      new;
      for i := 0 to |text|
        invariant board[..i] == text[..i] && boardOriginal[..i] == text[..i]
        invariant forall p :: i <= p < BOARD_SIZE ==> board[p] == NUL && boardOriginal[p] == NUL
      {
        board[i] := text[i];
        boardOriginal[i] := text[i];
      }
      assert forall p :: 0 <= p < |text| ==> board[p] == text[p] && boardOriginal[p] == text[p];
      assert board[..] == boardOriginal[..];
      assert boardOriginal[..][..|text|] == text;
      status := BoardOk;
      clues := GridOf(boardOriginal[..]);
      cells := clues;
      GridOfText(boardOriginal[..], text);
    }

    /** The character of cell (i, j), found by stepping two characters per column. */
    method ValueGet(i: int, j: int) returns (c: char)
      requires Valid() && 1 <= i <= 9 && 1 <= j <= 9
      ensures '0' <= c <= '9' && c as int - 48 == cells[i - 1][j - 1]
      ensures c == board[18 * (i - 1) + 2 * (j - 1)]
    {
      var tmp, left := 0, j;
      while left > 1
        invariant 1 <= left && tmp == 2 * (j - left)
      {
        tmp := tmp + 2;
        left := left - 1;
      }
      assert IsCell(Offset(i - 1, j - 1));
      c := board[CHARS_PER_ROW * (i - 1) + tmp];
    }

    method ValueGetOriginal(i: int, j: int) returns (c: char)
      requires Valid() && 1 <= i <= 9 && 1 <= j <= 9
      ensures '0' <= c <= '9' && c as int - 48 == clues[i - 1][j - 1]
      ensures c == boardOriginal[18 * (i - 1) + 2 * (j - 1)]
    {
      var tmp, left := 0, j;
      while left > 1
        invariant 1 <= left && tmp == 2 * (j - left)
      {
        tmp := tmp + 2;
        left := left - 1;
      }
      assert IsCell(Offset(i - 1, j - 1));
      c := boardOriginal[CHARS_PER_ROW * (i - 1) + tmp];
    }

    method ValueSet(i: int, j: int, value: int)
      requires Valid() && 1 <= i <= 9 && 1 <= j <= 9 && 0 <= value <= 9
      requires !IsClue(View(), i, j)
      modifies board, this`cells
      ensures Valid()
      ensures cells == SetCell(old(cells), i, j, value)
      ensures board[..] == old(board[..])[18 * (i - 1) + 2 * (j - 1) := (value + 48) as char]
    {
      var tmp, left := 0, j;
      while left > 1
        invariant 1 <= left && tmp == 2 * (j - left)
      {
        tmp := tmp + 2;
        left := left - 1;
      }
      ghost var before := board[..];
      var p := CHARS_PER_ROW * (i - 1) + tmp;
      assert p == Offset(i - 1, j - 1) && IsCell(p);
      board[p] := (value + 48) as char;
      cells := SetCell(cells, i, j, value);
      assert board[..] == before[p := (value + 48) as char];
      forall k, l | OnBoard(k, l) ensures IsCell(Offset(k, l)) && board[..][Offset(k, l)] as int - 48 == cells[k][l] {
        assert Offset(k, l) == p <==> (k, l) == (i - 1, j - 1);
      }
    }

    method Put(i: int, j: int, value: int)
      requires Valid() && 1 <= i <= 9 && 1 <= j <= 9 && 0 <= value <= 9
      modifies board, this`cells, this`status
      ensures Valid()
      ensures View() == SudokuGame.Put(old(View()), i, j, value)
    {
      var clue := ValueGetOriginal(i, j);
      if clue as int - 48 != 0 {
        status := BoardNonModifiable;
      } else {
        ValueSet(i, j, value);
      }
    }

    /** Where a verifier is inside one unit: the mask holds the values of the first t cells
        and the status tells whether a digit was repeated so far. */
    ghost predicate Scanned(scan: Scan, mask: nat, t: int)
      reads this`cells, this`status
    {
      && IsUnit(scan.unit) && 0 <= t <= 9
      && Records(mask, Values(cells, scan.unit)[..t])
      && status == Flag(scan.initial, scan.before || Repeats(Values(cells, scan.unit)[..t]))
    }

    lemma ScanBegins(scan: Scan)
      requires IsUnit(scan.unit) && status == Flag(scan.initial, scan.before)
      ensures Scanned(scan, 0, 0)
    {
      EmptyRecords();
    }

    lemma ScanEnds(scan: Scan, mask: nat)
      requires Scanned(scan, mask, 9)
      ensures status == Flag(scan.initial, scan.before || Repeats(Values(cells, scan.unit)))
    {
      assert Values(cells, scan.unit)[..9] == Values(cells, scan.unit);
    }

    /** The step the three verifiers repeat for every cell: a digit already seen in this
        unit marks the board invalid, a new one is added to the mask. */
    method ReadCell(mask: nat, i: int, j: int, ghost scan: Scan, ghost t: int) returns (next: nat)
      requires Valid() && Scanned(scan, mask, t)
      requires t < 9 && CellOf(scan.unit, t) == (i - 1, j - 1)
      modifies this`status
      ensures Valid() && Scanned(scan, next, t + 1)
    {
      hide Valid, Repeats, Records, SetBit, IsGrid;
      var c := ValueGet(i, j);
      var value := c as int - 48;
      ScanStep(mask, Values(cells, scan.unit), t);
      next := mask;
      if ShiftRight(mask, 9 - value) % 2 == 1 {
        status := BoardInvalid;
      } else if value != 0 {
        next := SetBit(mask, 9 - value);
      }
    }

    method RowVerify()
      requires Valid()
      modifies this`status
      ensures Valid()
      ensures status == Flag(old(status), AnyRepeats(cells, Rows, 9))
    {
      var row: nat := 0;
      for i := 1 to 10
        invariant Valid() && row == 0
        invariant status == Flag(old(status), AnyRepeats(cells, Rows, i - 1))
      {
        ghost var scan := Scan(Row(i - 1), old(status), AnyRepeats(cells, Rows, i - 1));
        ScanBegins(scan);
        for j := 1 to 10
          invariant Valid() && Scanned(scan, row, j - 1)
        {
          row := ReadCell(row, i, j, scan, j - 1);
        }
        ScanEnds(scan, row);
        row := 0;
      }
    }

    method ColVerify()
      requires Valid()
      modifies this`status
      ensures Valid()
      ensures status == Flag(old(status), AnyRepeats(cells, Cols, 9))
    {
      var col: nat := 0;
      for i := 1 to 10
        invariant Valid() && col == 0
        invariant status == Flag(old(status), AnyRepeats(cells, Cols, i - 1))
      {
        ghost var scan := Scan(Col(i - 1), old(status), AnyRepeats(cells, Cols, i - 1));
        ScanBegins(scan);
        for j := 1 to 10
          invariant Valid() && Scanned(scan, col, j - 1)
        {
          col := ReadCell(col, j, i, scan, j - 1);
        }
        ScanEnds(scan, col);
        col := 0;
      }
    }

    /** One 3x3 box, row by row. */
    method BoxScan(i: int, j: int, ghost scan: Scan)
      requires Valid() && 1 <= i <= 3 && 1 <= j <= 3
      requires scan.unit == Box(i - 1, j - 1) && status == Flag(scan.initial, scan.before)
      modifies this`status
      ensures Valid()
      ensures status == Flag(scan.initial, scan.before || Repeats(Values(cells, scan.unit)))
    {
      hide Scanned, Valid, Values, Repeats;
      var cell: nat := 0;
      ghost var t := 0;
      ScanBegins(scan);
      for k := 3 * i - 2 to 3 * i + 1
        invariant t == 3 * (k - (3 * i - 2))
        invariant Valid() && Scanned(scan, cell, t)
      {
        for l := 3 * j - 2 to 3 * j + 1
          invariant t == 3 * (k - (3 * i - 2)) + (l - (3 * j - 2))
          invariant Valid() && Scanned(scan, cell, t)
        {
          DivMod3(k - (3 * i - 2), l - (3 * j - 2));
          cell := ReadCell(cell, k, l, scan, t);
          t := t + 1;
        }
      }
      ScanEnds(scan, cell);
    }

    method CellVerify()
      requires Valid()
      modifies this`status
      ensures Valid()
      ensures status == Flag(old(status), AnyRepeats(cells, Boxes, 9))
    {
      ghost var g := cells;
      ghost var n := 0;
      for i := 1 to 4
        invariant Valid() && cells == g
        invariant n == 3 * (i - 1)
        invariant status == Flag(old(status), AnyRepeats(g, Boxes, n))
      {
        for j := 1 to 4
          invariant Valid() && cells == g
          invariant n == 3 * (i - 1) + (j - 1)
          invariant status == Flag(old(status), AnyRepeats(g, Boxes, n))
        {
          DivMod3(i - 1, j - 1);
          BoxScan(i, j, Scan(Box(i - 1, j - 1), old(status), AnyRepeats(g, Boxes, n)));
          n := n + 1;
        }
      }
    }

    method Verify()
      requires Valid()
      modifies this`status
      ensures Valid()
      ensures View() == SudokuGame.Verify(old(View()))
    {
      RowVerify();
      ColVerify();
      CellVerify();
      AllUnits(cells);
    }

    /** board_reset: the copy stops at the first NUL of the original text, and still the
        whole buffer equals the original afterwards. */
    method Reset()
      requires Valid()
      modifies board, this`cells, this`status
      ensures Valid()
      ensures board[..] == boardOriginal[..]
      ensures View() == SudokuGame.Reset(old(View()))
    {
      var n := 0;
      while n < BOARD_SIZE - 1 && boardOriginal[n] != NUL
        invariant 0 <= n <= TEXT_SIZE
        invariant board[..n] == boardOriginal[..n]
        invariant forall p :: n <= p < BOARD_SIZE ==> board[p] == old(board[p])
      {
        board[n] := boardOriginal[n];
        n := n + 1;
      }
      board[n] := NUL;
      assert forall p :: 0 <= p < BOARD_SIZE ==> board[p] == boardOriginal[p];
      assert board[..] == boardOriginal[..];
      status := BoardOk;
      cells := clues;
    }
  }
}
