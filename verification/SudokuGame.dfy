/** The abstract Sudoku machine: what one command does to the game and what it answers. */
module SudokuGame {
  import opened Text
  import opened SudokuRules
  import opened SudokuPicture

  datatype Status = BoardOk | BoardNonModifiable | BoardFileError | BoardInvalid

  /** A command: a put with its three arguments, or one of the argument-free letters. */
  datatype Command = PutAt(row: int, col: int, value: int) | Plain(op: char)

  /** What the client lets through: rows and columns in 1..9, values in 0..9. */
  predicate Legal(c: Command) {
    match c
    case PutAt(r, k, v) => 1 <= r <= 9 && 1 <= k <= 9 && 0 <= v <= 9
    case Plain(op) => op != 'P'
  }

  datatype Game = Game(clues: Grid, cells: Grid, status: Status)

  const MSG_NON_MODIFIABLE_CELL := "La celda indicada no es modificable\n"
  const MSG_ERROR_VERIFY := "ERROR\n"
  const MSG_OK_VERIFY := "OK\n"
  const MSG_INVALID_CMD := "Se ingres\U{00C3}\U{00B3} un comando invalido "

  function Start(clues: Grid): Game {
    Game(clues, clues, BoardOk)
  }

  predicate IsClue(g: Game, r: int, c: int)
    requires 1 <= r <= 9 && 1 <= c <= 9
  {
    g.clues[r - 1][c - 1] != 0
  }

  function SetCell(cells: Grid, r: int, c: int, v: int): (s: Grid)
    requires 1 <= r <= 9 && 1 <= c <= 9 && 0 <= v <= 9
    ensures forall i, j :: OnBoard(i, j) ==> s[i][j] == if (i, j) == (r - 1, c - 1) then v else cells[i][j]
  {
    cells[r - 1 := cells[r - 1][c - 1 := v]]
  }

  function Put(g: Game, r: int, c: int, v: int): Game
    requires 1 <= r <= 9 && 1 <= c <= 9 && 0 <= v <= 9
  {
    if IsClue(g, r, c) then g.(status := BoardNonModifiable) else g.(cells := SetCell(g.cells, r, c, v))
  }

  ghost function Verify(g: Game): Game {
    if Consistent(g.cells) then g else g.(status := BoardInvalid)
  }

  function Reset(g: Game): Game {
    g.(cells := g.clues, status := BoardOk)
  }

  /** One command: the next game and the string sent back. */
  ghost function Step(g: Game, cmd: Command): (r: (Game, string))
    requires Legal(cmd)
  {
    match cmd
    case PutAt(r, c, v) =>
      var h := Put(g, r, c, v);
      if h.status == BoardNonModifiable then (h.(status := BoardOk), MSG_NON_MODIFIABLE_CELL)
      else (h, Picture(h.cells))
    case Plain(op) =>
      if op == 'V' then
        var h := Verify(g);
        (h, if h.status == BoardInvalid then MSG_ERROR_VERIFY else MSG_OK_VERIFY)
      else if op == 'R' then
        (Reset(g), Picture(g.clues))
      else if op == 'G' then
        (g, Picture(g.cells))
      else
        (g, MSG_INVALID_CMD)
  }

  ghost predicate AllLegal(cmds: seq<Command>) {
    forall k :: 0 <= k < |cmds| ==> Legal(cmds[k])
  }

  /** The game after a list of commands. */
  ghost function After(g: Game, cmds: seq<Command>): Game
    requires AllLegal(cmds)
  {
    if cmds == [] then g else Step(After(g, cmds[..|cmds| - 1]), cmds[|cmds| - 1]).0
  }

  /** The answer to command number k of the list. */
  ghost function Answer(g: Game, cmds: seq<Command>, k: int): string
    requires AllLegal(cmds) && 0 <= k < |cmds|
  {
    Step(After(g, cmds[..k]), cmds[k]).1
  }

  ghost function Answers(g: Game, cmds: seq<Command>): (a: seq<string>)
    requires AllLegal(cmds)
    ensures |a| == |cmds|
  {
    seq(|cmds|, k requires 0 <= k < |cmds| => Answer(g, cmds, k))
  }

  /** One more command adds one answer, given by the game reached so far. */
  lemma AnswersSnoc(g: Game, cmds: seq<Command>, c: Command)
    requires AllLegal(cmds) && Legal(c)
    ensures AllLegal(cmds + [c])
    ensures After(g, cmds + [c]) == Step(After(g, cmds), c).0
    ensures Answers(g, cmds + [c]) == Answers(g, cmds) + [Step(After(g, cmds), c).1]
  {
    var all := cmds + [c];
    assert all[..|cmds|] == cmds;
    forall k | 0 <= k < |cmds| ensures Answers(g, all)[k] == Answers(g, cmds)[k] {
      assert all[..k] == cmds[..k];
    }
  }

  /** The first answers do not depend on the commands that come later. */
  lemma AnswersPrefix(g: Game, cmds: seq<Command>, all: seq<Command>)
    requires AllLegal(all) && cmds <= all
    ensures AllLegal(cmds) && Answers(g, cmds) == Answers(g, all)[..|cmds|]
  {
    forall k | 0 <= k < |cmds| ensures Legal(cmds[k]) && cmds[..k] == all[..k] {
      assert cmds[k] == all[k];
    }
  }

  /** Every answer is a C string of 1 to 722 bytes, so its three-digit header can carry it and
      the client's buffer can hold it. */
  lemma AnswerFits(g: Game, cmd: Command)
    requires Legal(cmd)
    ensures var m := Step(g, cmd).1; 1 <= |m| <= PICTURE_SIZE && NulFree(m)
  {
    PictureNulFree(Step(g, cmd).0.cells);
    PictureNulFree(g.clues);
  }

  // ---- What a whole run of commands does ----

  /** The run's k-th command, when it takes the sticky verdict away: a reset, or a put
      on a clue cell. */
  predicate Clears(g: Game, c: Command)
    requires Legal(c)
  {
    c == Plain('R') || (c.PutAt? && IsClue(g, c.row, c.col))
  }

  /** Clue cells never change and BOARD_NON_MODIFIABLE_VALUE never outlives a command. */
  lemma {:induction false} RunKeepsClues(g: Game, cmds: seq<Command>)
    requires AllLegal(cmds) && g.status in {BoardOk, BoardInvalid}
    requires forall i, j :: OnBoard(i, j) && g.clues[i][j] != 0 ==> g.cells[i][j] == g.clues[i][j]
    ensures var h := After(g, cmds);
      && h.clues == g.clues
      && h.status in {BoardOk, BoardInvalid}
      && (forall i, j :: OnBoard(i, j) && g.clues[i][j] != 0 ==> h.cells[i][j] == g.clues[i][j])
  {
    if cmds != [] {
      RunKeepsClues(g, cmds[..|cmds| - 1]);
    }
  }

  /** Some V among the first n commands found the board inconsistent and neither a reset
      nor a rejected put came after it. */
  ghost predicate Tainted(g: Game, cmds: seq<Command>, n: int)
    requires AllLegal(cmds) && 0 <= n <= |cmds|
  {
    exists m :: 0 <= m < n && FailedCheck(g, cmds, m)
      && (forall k :: m < k < n ==> !Clears(g, cmds[k]))
  }

  ghost predicate FailedCheck(g: Game, cmds: seq<Command>, m: int)
    requires AllLegal(cmds) && 0 <= m < |cmds|
  {
    cmds[m] == Plain('V') && !Consistent(After(g, cmds[..m]).cells)
  }

  /** How one command moves the status. */
  lemma StatusStep(g: Game, c: Command)
    requires Legal(c) && g.status in {BoardOk, BoardInvalid}
    ensures Step(g, c).0.status
      == if Clears(g, c) then BoardOk else if c == Plain('V') && !Consistent(g.cells) then BoardInvalid else g.status
  {
  }

  lemma TaintedStep(g: Game, cmds: seq<Command>, n: int)
    requires AllLegal(cmds) && 0 < n <= |cmds|
    ensures Tainted(g, cmds, n) <==> !Clears(g, cmds[n - 1]) && (FailedCheck(g, cmds, n - 1) || Tainted(g, cmds, n - 1))
  {
    if !Clears(g, cmds[n - 1]) && Tainted(g, cmds, n - 1) {
      var m :| 0 <= m < n - 1 && FailedCheck(g, cmds, m) && (forall k :: m < k < n - 1 ==> !Clears(g, cmds[k]));
      assert forall k :: m < k < n ==> !Clears(g, cmds[k]);
    }
  }

  /** The sticky status is exactly the history of failed checks. */
  lemma {:induction false} StatusIsHistory(clues: Grid, cmds: seq<Command>, n: int)
    requires AllLegal(cmds) && 0 <= n <= |cmds|
    ensures After(Start(clues), cmds[..n]).status == (if Tainted(Start(clues), cmds, n) then BoardInvalid else BoardOk)
  {
    var g := Start(clues);
    if n > 0 {
      StatusIsHistory(clues, cmds, n - 1);
      assert cmds[..n][..n - 1] == cmds[..n - 1];
      RunKeepsClues(g, cmds[..n - 1]);
      StatusStep(After(g, cmds[..n - 1]), cmds[n - 1]);
      TaintedStep(g, cmds, n);
    }
  }

  /** V answers ERROR exactly when the board breaks the rule now, or an earlier V since the
      latest reset or rejected put saw it broken. */
  lemma VerifyAnswersHistory(clues: Grid, cmds: seq<Command>, n: int)
    requires AllLegal(cmds) && 0 <= n < |cmds| && cmds[n] == Plain('V')
    ensures Answer(Start(clues), cmds, n)
      == if !Consistent(After(Start(clues), cmds[..n]).cells) || Tainted(Start(clues), cmds, n) then "ERROR\n" else "OK\n"
  {
    StatusIsHistory(clues, cmds, n);
  }

  /** The value a player last got accepted for cell (r, c) since the last reset, 0 if none. */
  ghost function LastAccepted(cmds: seq<Command>, r: int, c: int): int {
    if cmds == [] then 0 else
      var last := cmds[|cmds| - 1];
      if last == Plain('R') then 0
      else if last.PutAt? && last.row == r && last.col == c then last.value
      else LastAccepted(cmds[..|cmds| - 1], r, c)
  }

  /** How one command moves one cell. */
  lemma CellStep(g: Game, cmd: Command, r: int, c: int)
    requires Legal(cmd) && g.status in {BoardOk, BoardInvalid} && 1 <= r <= 9 && 1 <= c <= 9
    ensures Step(g, cmd).0.cells[r - 1][c - 1] ==
      if cmd == Plain('R') then g.clues[r - 1][c - 1]
      else if cmd.PutAt? && cmd.row == r && cmd.col == c && !IsClue(g, r, c) then cmd.value
      else g.cells[r - 1][c - 1]
  {
    hide Picture, Consistent;
  }

  /** After any run, a clue cell holds its clue and a free cell the last value accepted there. */
  lemma {:induction false} CellsAreHistory(clues: Grid, cmds: seq<Command>, r: int, c: int)
    requires AllLegal(cmds) && 1 <= r <= 9 && 1 <= c <= 9
    ensures After(Start(clues), cmds).cells[r - 1][c - 1]
      == if clues[r - 1][c - 1] != 0 then clues[r - 1][c - 1] else LastAccepted(cmds, r, c)
  {
    hide Step;
    if cmds != [] {
      var before := cmds[..|cmds| - 1];
      CellsAreHistory(clues, before, r, c);
      RunKeepsClues(Start(clues), before);
      CellStep(After(Start(clues), before), cmds[|cmds| - 1], r, c);
    }
  }

  /** The board after a command that shows it is the board shown. */
  lemma ShowsBoard(g: Game, cmd: Command)
    requires Legal(cmd) && g.status in {BoardOk, BoardInvalid}
    requires cmd.PutAt? || cmd == Plain('G') || cmd == Plain('R')
    ensures var (next, answer) := Step(g, cmd);
      answer == if cmd.PutAt? && IsClue(g, cmd.row, cmd.col) then MSG_NON_MODIFIABLE_CELL else Picture(next.cells)
  {
    hide Picture, SetCell;
  }

  /** What the player sees: a put on a clue is refused, and every board shown has, at each
      cell, the clue or the last value accepted there, or a blank, and the lattice around. */
  lemma PlayerSees(clues: Grid, cmds: seq<Command>, n: int, r: int, c: int, p: int)
    requires AllLegal(cmds) && 0 <= n < |cmds| && 1 <= r <= 9 && 1 <= c <= 9 && 0 <= p < 722
    requires cmds[n].PutAt? || cmds[n] == Plain('G') || cmds[n] == Plain('R')
    ensures var answer := Answer(Start(clues), cmds, n);
      var v := if clues[r - 1][c - 1] != 0 then clues[r - 1][c - 1] else LastAccepted(cmds[..n + 1], r, c);
      if cmds[n].PutAt? && clues[cmds[n].row - 1][cmds[n].col - 1] != 0 then
        answer == "La celda indicada no es modificable\n"
      else (
        && |answer| == 722 && 0 <= v <= 9
        && answer[76 * r + 4 * c - 40] == (if v == 0 then ' ' else (48 + v) as char)
        && (!(p / 38 % 2 == 1 && p % 38 % 4 == 2) ==> answer[p] == Lattice(p / 38, p % 38)))
  {
    hide Step, Picture, LastAccepted, Lattice;
    var g := After(Start(clues), cmds[..n]);
    RunKeepsClues(Start(clues), cmds[..n]);
    ShowsBoard(g, cmds[n]);
    assert cmds[..n + 1][..n] == cmds[..n];
    var cells := Step(g, cmds[n]).0.cells;
    PictureDepicts(cells);
    CellsAreHistory(clues, cmds[..n + 1], r, c);
    assert OnBoard(r - 1, c - 1) && 76 * (r - 1) + 4 * (c - 1) + 40 == 76 * r + 4 * c - 40;
  }

  /** A letter that is no command changes nothing and is answered by a complaint. */
  lemma UnknownAnswer(g: Game, op: char)
    requires op !in {'P', 'V', 'R', 'G'}
    ensures Step(g, Plain(op)) == (g, "Se ingres\U{00C3}\U{00B3} un comando invalido ")
  {
  }
}
