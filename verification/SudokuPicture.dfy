/** The board drawn as text: 19 rows of 38 characters, 722 in all. */
module SudokuPicture {
  import opened Text
  import opened SudokuRules

  const CH_PER_ROW := 38
  const ROWS := 19
  const PICTURE_SIZE := 722

  const BOARD_ROW_SEP_CELL := "U===========U===========U===========U\n"
  const BOARD_ROW_SEP := "U---+---+---U---+---+---U---+---+---U\n"
  const BOARD_ROW := "U   |   |   U   |   |   U   |   |   U\n"

  /** The row separators of the template, from top to bottom. */
  function TemplateRow(r: int): (s: string)
    ensures |s| == CH_PER_ROW && NulFree(s)
  {
    if r % 6 == 0 then BOARD_ROW_SEP_CELL
    else if r % 2 == 0 then BOARD_ROW_SEP
    else BOARD_ROW
  }

  function TemplateRows(n: nat): (s: seq<string>)
    ensures |s| == n
  {
    seq(n, r => TemplateRow(r))
  }

  lemma {:induction false} TemplatePrefix(n: nat)
    ensures |Concat(TemplateRows(n))| == CH_PER_ROW * n
    ensures forall p :: 0 <= p < CH_PER_ROW * n ==> Concat(TemplateRows(n))[p] == TemplateRow(p / CH_PER_ROW)[p % CH_PER_ROW]
  {
    if n > 0 {
      var before := Concat(TemplateRows(n - 1));
      TemplatePrefix(n - 1);
      assert TemplateRows(n) == TemplateRows(n - 1) + [TemplateRow(n - 1)];
      ConcatSnoc(TemplateRows(n - 1), TemplateRow(n - 1));
      forall p | 0 <= p < CH_PER_ROW * n
        ensures (before + TemplateRow(n - 1))[p] == TemplateRow(p / CH_PER_ROW)[p % CH_PER_ROW]
      {
        if p >= CH_PER_ROW * (n - 1) {
          assert p / CH_PER_ROW == n - 1 && p % CH_PER_ROW == p - CH_PER_ROW * (n - 1);
        }
      }
    }
  }

  /** The empty drawing: the nineteen rows laid end to end. */
  function Template(): (s: string)
    ensures |s| == PICTURE_SIZE
  {
    TemplatePrefix(ROWS);
    Concat(TemplateRows(ROWS))
  }

  /** Closed form of the template. */
  lemma TemplateAt(p: int)
    requires 0 <= p < PICTURE_SIZE
    ensures Template()[p] == TemplateRow(p / CH_PER_ROW)[p % CH_PER_ROW]
  {
    TemplatePrefix(ROWS);
  }

  /** The offset where cell (k, j), 1-based, is drawn. */
  function Slot(k: int, j: int): int {
    76 * k + 4 * j - 40
  }

  /** Offsets that hold a cell: every fourth column of an odd row. */
  predicate IsSlot(p: int) {
    p / CH_PER_ROW % 2 == 1 && p % CH_PER_ROW % 4 == 2
  }

  function CellChar(v: int): char
    requires 0 <= v <= 9
  {
    if v == 0 then ' ' else '0' + v as char
  }

  function PictureChar(g: Grid, p: int): char
    requires 0 <= p < PICTURE_SIZE
  {
    if IsSlot(p) then CellChar(g[(p / CH_PER_ROW - 1) / 2][(p % CH_PER_ROW - 2) / 4])
    else TemplateRow(p / CH_PER_ROW)[p % CH_PER_ROW]
  }

  function Picture(g: Grid): (s: string)
    ensures |s| == PICTURE_SIZE
  {
    seq(PICTURE_SIZE, p requires 0 <= p < PICTURE_SIZE => PictureChar(g, p))
  }

  lemma RowCharNotNul(r: int, c: int)
    requires 0 <= c < CH_PER_ROW
    ensures TemplateRow(r)[c] != NUL
  {
    assert TemplateRow(r)[c] in TemplateRow(r);
  }

  lemma PictureNulFree(g: Grid)
    ensures NulFree(Picture(g))
  {
    forall p | 0 <= p < PICTURE_SIZE ensures Picture(g)[p] != NUL {
      RowCharNotNul(p / CH_PER_ROW, p % CH_PER_ROW);
    }
  }

  /** Slots of different cells are different offsets, all of them inside the drawing. */
  lemma SlotOfCell(k: int, j: int)
    requires 1 <= k <= 9 && 1 <= j <= 9
    ensures 0 <= Slot(k, j) < PICTURE_SIZE && IsSlot(Slot(k, j))
    ensures (Slot(k, j) / CH_PER_ROW - 1) / 2 == k - 1 && (Slot(k, j) % CH_PER_ROW - 2) / 4 == j - 1
  {
    var p := Slot(k, j);
    assert p == CH_PER_ROW * (2 * k - 1) + (4 * j - 2);
    assert p / CH_PER_ROW == 2 * k - 1 && p % CH_PER_ROW == 4 * j - 2;
  }

  /** And every slot offset belongs to a cell. */
  lemma CellOfSlot(p: int)
    requires 0 <= p < PICTURE_SIZE && IsSlot(p)
    ensures p == Slot((p / CH_PER_ROW - 1) / 2 + 1, (p % CH_PER_ROW - 2) / 4 + 1)
    ensures OnBoard((p / CH_PER_ROW - 1) / 2, (p % CH_PER_ROW - 2) / 4)
  {
  }

  function DigitAt(s: string, k: int, j: int): (v: int)
    requires |s| == PICTURE_SIZE && 1 <= k <= 9 && 1 <= j <= 9
    ensures 0 <= v <= 9
  {
    var c := s[Slot(k, j)];
    if '0' <= c <= '9' then (c - '0') as int else 0
  }

  /** Reading the 81 digits back from a drawing. */
  function Decode(s: string): (g: Grid)
    requires |s| == PICTURE_SIZE
  {
    var g := seq(9, i requires 0 <= i < 9 => seq(9, j requires 0 <= j < 9 => DigitAt(s, i + 1, j + 1)));
    assert forall i, j :: 0 <= i < 9 && 0 <= j < 9 ==> g[i][j] == DigitAt(s, i + 1, j + 1);
    g
  }

  /** Nothing is lost in the drawing: it can be read back, so it determines the grid. */
  lemma PictureDecodes(g: Grid)
    ensures Decode(Picture(g)) == g
  {
    forall i, j | 0 <= i < 9 && 0 <= j < 9 ensures Decode(Picture(g))[i][j] == g[i][j] {
      SlotOfCell(i + 1, j + 1);
    }
    forall i | 0 <= i < 9 ensures Decode(Picture(g))[i] == g[i] {
    }
  }

  /** Outside the 81 slots the drawing is the template. */
  lemma PictureOutsideSlots(g: Grid, p: int)
    requires 0 <= p < PICTURE_SIZE && !IsSlot(p)
    ensures Picture(g)[p] == Template()[p]
  {
    TemplateAt(p);
  }

  // ---- What a drawing looks like ----

  /** The lattice around the digits, character by character. */
  function Lattice(row: int, col: int): char {
    if col == 37 then '\n'
    else if col == 0 || col == 12 || col == 24 || col == 36 then 'U'
    else if row % 6 == 0 then '='
    else if row % 2 == 0 then (if col % 4 == 0 then '+' else '-')
    else if col % 4 == 0 then '|'
    else ' '
  }

  lemma CellSeparatorLooks(c: int)
    requires 0 <= c < CH_PER_ROW
    ensures BOARD_ROW_SEP_CELL[c] == Lattice(0, c)
  {
  }

  lemma SeparatorLooks(c: int)
    requires 0 <= c < CH_PER_ROW
    ensures BOARD_ROW_SEP[c] == Lattice(2, c)
  {
  }

  lemma RowLooks(c: int)
    requires 0 <= c < CH_PER_ROW
    ensures BOARD_ROW[c] == Lattice(1, c)
  {
  }

  lemma TemplateRowLooks(r: int, c: int)
    requires 0 <= c < CH_PER_ROW
    ensures TemplateRow(r)[c] == Lattice(r, c)
  {
    CellSeparatorLooks(c);
    SeparatorLooks(c);
    RowLooks(c);
  }

  /** A text that shows this grid, every character of it: blanks for empty cells, digits for
      the others, the lattice everywhere else. */
  ghost predicate Depicts(text: string, g: Grid) {
    && (forall i, j :: OnBoard(i, j) ==>
      76 * i + 4 * j + 40 < |text|
      && text[76 * i + 4 * j + 40] == if g[i][j] == 0 then ' ' else (48 + g[i][j]) as char)
    && (forall p :: 0 <= p < |text| && !(p / 38 % 2 == 1 && p % 38 % 4 == 2) ==> text[p] == Lattice(p / 38, p % 38))
  }

  lemma PictureDepicts(g: Grid)
    ensures Depicts(Picture(g), g)
  {
    hide TemplateRow, Lattice;
    forall i, j | OnBoard(i, j) ensures Picture(g)[76 * i + 4 * j + 40] == if g[i][j] == 0 then ' ' else (48 + g[i][j]) as char {
      SlotOfCell(i + 1, j + 1);
      assert Slot(i + 1, j + 1) == 76 * i + 4 * j + 40;
    }
    forall p | 0 <= p < PICTURE_SIZE && !(p / 38 % 2 == 1 && p % 38 % 4 == 2)
      ensures Picture(g)[p] == Lattice(p / 38, p % 38)
    {
      TemplateRowLooks(p / 38, p % 38);
    }
  }

  /** Without its last character too a drawing shows the grid. */
  lemma DepictsChopped(text: string, g: Grid)
    requires Depicts(text, g) && |text| == PICTURE_SIZE
    ensures Depicts(text[..|text| - 1], g)
  {
    hide Lattice;
  }
}
