/** What each typed line does and shows, in every run of the two processes, said of the
    line's own words, of the board at the server and of the characters the player reads. */
module SudokuTyped {
  import opened SudokuRules
  import opened SudokuPicture
  import opened SudokuGame
  import opened SudokuProtocol
  import opened SudokuClient
  import opened SudokuSession

  /** The commands one line sends. */
  function SentFor(line: string): (cmds: seq<Command>)
    ensures AllLegal(cmds)
  {
    var w := Tokens(line);
    if line == "verify\n" then [Plain('V')]
    else if line == "get\n" then [Plain('G')]
    else if line == "reset\n" then [Plain('R')]
    else if IsPut(w) && !Leaves(line) then
      [PutAt(w[3][0] as int - 48, w[3][2] as int - 48, w[1][0] as int - 48)]
    else []
  }

  /** No line before the k-th ends the game. */
  ghost predicate Typed(lines: seq<string>, k: int) {
    0 <= k < |lines| && forall j :: 0 <= j < k ==> !Leaves(lines[j])
  }

  lemma ParseSends(line: string)
    requires IsLine(line)
    ensures Leaves(line) <==> Parse(line) == Exit
    ensures SentFor(line) == if Parse(line).Valid? then [Parse(line).c] else []
  {
    hide Tokens, IsPut, HasBadIndex, Leaves, Parse;
    PlainWords(line);
    PutWords(line);
    if line !in {"verify\n", "get\n", "reset\n"} && !Leaves(line) && !IsPut(Tokens(line)) && !HasBadIndex(Tokens(line)) {
      OtherWords(line);
    }
  }

  /** A script is sent line by line, and nothing of it from the line on that ends the game. */
  lemma {:induction false} ScriptLineByLine(lines: seq<string>, k: int)
    requires AllLines(lines) && Typed(lines, k)
    ensures Script(lines[..k + 1]) == Script(lines[..k]) + SentFor(lines[k])
    ensures Script(lines[..k + 1]) <= Script(lines)
    ensures Leaves(lines[k]) ==> Script(lines) == Script(lines[..k])
  {
    hide Parse, SentFor, Leaves, IsLine;
    var rest := lines[1..];
    ParseSends(lines[0]);
    if k == 0 {
      assert lines[..1][0] == lines[0] && lines[..1][1..] == [] && lines[..0] == [];
      assert Script(lines[..1]) == SentFor(lines[0]);
    } else {
      ScriptLineByLine(rest, k - 1);
      assert lines[..k][1..] == rest[..k - 1] && lines[..k + 1][1..] == rest[..k];
      assert lines[..k][0] == lines[0] == lines[..k + 1][0];
    }
  }

  /** The server's game and the replies shown are those of the commands sent so far. */
  lemma ReachedState(clues: Grid, lines: seq<string>, ls: seq<Label>)
    requires AllLines(lines) && CanRun(Init(clues, lines), ls)
    ensures var s := Run(Init(clues, lines), ls); var n := |s.answered|;
      && n <= |Script(lines)| && |s.shown| <= n
      && s.game == After(Start(clues), Script(lines)[..n])
      && s.answered == Answers(Start(clues), Script(lines)[..n])
      && s.shown == Chopped(s.answered[..|s.shown|])
  {
    var s := Run(Init(clues, lines), ls);
    InitInv(clues, lines);
    RunKeeps(Init(clues, lines), ls, clues, lines);
    StateOfScript(s, clues, lines);
  }

  lemma StateOfScript(s: State, clues: Grid, lines: seq<string>)
    requires Inv(s, clues, lines)
    ensures var n := |s.answered|;
      && n <= |Script(lines)| && |s.shown| <= n
      && s.game == After(Start(clues), Script(lines)[..n])
      && s.answered == Answers(Start(clues), Script(lines)[..n])
      && s.shown == Chopped(s.answered[..|s.shown|])
  {
    hide After, Answers, Script, IsLine, Header, Encode, Frame;
    var n := |s.answered|;
    assert s.sent[..n] == Script(lines)[..n];
    assert s.answered[..n] == s.answered;
  }

  /** The number of commands the lines before the k-th send. */
  function Count(lines: seq<string>, k: int): nat
    requires 0 <= k <= |lines|
  {
    |Script(lines[..k])|
  }

  /** The game as the lines before the k-th leave it. */
  ghost function GameAt(clues: Grid, lines: seq<string>, k: int): Game
    requires 0 <= k <= |lines|
  {
    After(Start(clues), Script(lines[..k]))
  }

  /** Line k sends one command: the server is found just before it and just after it with
      the games on either side of that command, and its reply is shown without the last byte. */
  lemma LineAnswered(clues: Grid, lines: seq<string>, ls: seq<Label>, k: int, c: Command)
    requires AllLines(lines) && CanRun(Init(clues, lines), ls) && Typed(lines, k) && SentFor(lines[k]) == [c]
    ensures var s := Run(Init(clues, lines), ls); var n := Count(lines, k); var g := GameAt(clues, lines, k);
      && Legal(c) && g.clues == clues && g.status in {BoardOk, BoardInvalid}
      && (|s.answered| == n ==> s.game == g)
      && (|s.answered| == n + 1 ==> s.game == Step(g, c).0)
      && (|s.shown| > n ==> Step(g, c).1 != "" && s.shown[n] == Chop(Step(g, c).1))
  {
    hide After, Answers, Script, SentFor, Step, Run, CanRun;
    var s := Run(Init(clues, lines), ls);
    var n, all, before := Count(lines, k), Script(lines), Script(lines[..k]);
    ReachedState(clues, lines, ls);
    ScriptLineByLine(lines, k);
    assert all[..n + 1] == Script(lines[..k + 1]) == before + [c];
    assert all[..n] == before;
    assert c == all[n];
    AnswersSnoc(Start(clues), before, c);
    RunKeepsStart(clues, before);
    AnswerFits(After(Start(clues), before), c);
    if |s.shown| > n {
      AnswersPrefix(Start(clues), all[..n + 1], all[..|s.answered|]);
      assert s.answered[n] == Answers(Start(clues), all[..n + 1])[n];
    }
  }

  lemma RunKeepsStart(clues: Grid, cmds: seq<Command>)
    requires AllLegal(cmds)
    ensures After(Start(clues), cmds).clues == clues && After(Start(clues), cmds).status in {BoardOk, BoardInvalid}
  {
    RunKeepsClues(Start(clues), cmds);
  }

  // ---- The main results ----

  /** A typed verify leaves the board alone and shows ERROR exactly when the board is
      inconsistent or an earlier check failed and no reset or rejected put came since. */
  lemma TypedVerify(clues: Grid, lines: seq<string>, ls: seq<Label>, k: int)
    requires AllLines(lines) && CanRun(Init(clues, lines), ls) && Typed(lines, k) && lines[k] == "verify\n"
    ensures var s := Run(Init(clues, lines), ls); var n := Count(lines, k); var g := GameAt(clues, lines, k);
      var failed := !Consistent(g.cells) || Tainted(Start(clues), Script(lines[..k]), n);
      && (|s.answered| == n ==> s.game == g)
      && (|s.answered| == n + 1 ==>
        s.game.cells == g.cells && s.game.status == if Consistent(g.cells) then g.status else BoardInvalid)
      && (|s.shown| > n ==> s.shown[n] == if failed then "ERROR" else "OK")
      && (failed <==> !Consistent(g.cells) || g.status == BoardInvalid)
  {
    hide After, Script, Run, CanRun, Consistent, Tainted;
    LineAnswered(clues, lines, ls, k, Plain('V'));
    var cmds := Script(lines[..k]);
    VerifyAfter(clues, cmds);
    StatusIsHistory(clues, cmds, |cmds|);
    assert cmds[..|cmds|] == cmds;
    assert "ERROR\n"[..5] == "ERROR" && "OK\n"[..2] == "OK";
  }

  lemma VerifyAfter(clues: Grid, cmds: seq<Command>)
    requires AllLegal(cmds)
    ensures Step(After(Start(clues), cmds), Plain('V')).1
      == if !Consistent(After(Start(clues), cmds).cells) || Tainted(Start(clues), cmds, |cmds|) then "ERROR\n" else "OK\n"
  {
    hide Consistent;
    StatusIsHistory(clues, cmds, |cmds|);
    assert cmds[..|cmds|] == cmds;
  }

  /** A typed get changes nothing at the server and shows the board as it is, every
      character of it. */
  lemma TypedGet(clues: Grid, lines: seq<string>, ls: seq<Label>, k: int)
    requires AllLines(lines) && CanRun(Init(clues, lines), ls) && Typed(lines, k) && lines[k] == "get\n"
    ensures var s := Run(Init(clues, lines), ls); var n := Count(lines, k); var g := GameAt(clues, lines, k);
      && (|s.answered| == n ==> s.game == g)
      && (|s.answered| == n + 1 ==> s.game == g)
      && (|s.shown| > n ==> |s.shown[n]| == 721 && Depicts(s.shown[n], g.cells))
  {
    hide After, Script, Run, CanRun, Depicts, Picture;
    LineAnswered(clues, lines, ls, k, Plain('G'));
    PictureDepicts(GameAt(clues, lines, k).cells);
    DepictsChopped(Picture(GameAt(clues, lines, k).cells), GameAt(clues, lines, k).cells);
  }

  /** A typed reset makes the server's board the clues and nothing else, takes a failed
      check back, and shows the clues. */
  lemma TypedReset(clues: Grid, lines: seq<string>, ls: seq<Label>, k: int)
    requires AllLines(lines) && CanRun(Init(clues, lines), ls) && Typed(lines, k) && lines[k] == "reset\n"
    ensures var s := Run(Init(clues, lines), ls); var n := Count(lines, k);
      && (|s.answered| == n + 1 ==> s.game.cells == clues && s.game.status == BoardOk)
      && (|s.shown| > n ==> |s.shown[n]| == 721 && Depicts(s.shown[n], clues))
  {
    hide After, Script, Run, CanRun, Depicts, Picture;
    LineAnswered(clues, lines, ls, k, Plain('R'));
    PictureDepicts(clues);
    DepictsChopped(Picture(clues), clues);
  }

  /** A typed put of v at (r, c) is refused when the cell is a clue, and otherwise changes
      exactly that cell, and the new board is shown. */
  lemma TypedPut(clues: Grid, lines: seq<string>, ls: seq<Label>, k: int, r: int, c: int, v: int)
    requires AllLines(lines) && CanRun(Init(clues, lines), ls) && Typed(lines, k)
    requires 1 <= r <= 9 && 1 <= c <= 9 && 0 <= v <= 9
    requires Tokens(lines[k]) == ["put", [(48 + v) as char], "in", [(48 + r) as char, ',', (48 + c) as char, '\n']]
    ensures var s := Run(Init(clues, lines), ls); var n := Count(lines, k); var g := GameAt(clues, lines, k);
      if clues[r - 1][c - 1] != 0 then
        && (|s.answered| == n + 1 ==> s.game.cells == g.cells && s.game.status == BoardOk)
        && (|s.shown| > n ==> s.shown[n] == "La celda indicada no es modificable")
      else (
        && (|s.answered| == n ==> s.game == g)
        && (|s.answered| == n + 1 ==> s.game.status == g.status && forall i, j :: OnBoard(i, j) ==>
          s.game.cells[i][j] == if i == r - 1 && j == c - 1 then v else g.cells[i][j])
        && (|s.shown| > n ==> |s.shown[n]| == 721 && Depicts(s.shown[n], SetCell(g.cells, r, c, v))))
  {
    hide After, Script, Run, CanRun, Depicts, Picture, Tokens, SetCell;
    var g := GameAt(clues, lines, k);
    PutIsSent(lines[k], r, c, v);
    LineAnswered(clues, lines, ls, k, PutAt(r, c, v));
    var cells := Step(g, PutAt(r, c, v)).0.cells;
    PictureDepicts(cells);
    DepictsChopped(Picture(cells), cells);
    assert "La celda indicada no es modificable\n"[..35] == "La celda indicada no es modificable";
  }

  lemma PutIsSent(line: string, r: int, c: int, v: int)
    requires IsLine(line) && 1 <= r <= 9 && 1 <= c <= 9 && 0 <= v <= 9
    requires Tokens(line) == ["put", [(48 + v) as char], "in", [(48 + r) as char, ',', (48 + c) as char, '\n']]
    ensures SentFor(line) == [PutAt(r, c, v)]
  {
    hide Tokens, Parse;
    PlainWords(line);
    PutWords(line);
  }
}
