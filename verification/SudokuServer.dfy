/** The server process: drawing the board, answering one command, serving a whole
    connection (server.c and the server half of sudoku.c). */
module SudokuServer {
  import opened Text
  import opened SudokuRules
  import opened SudokuGame
  import opened SudokuPicture
  import opened SudokuBoard
  import opened SudokuSocket
  import opened SudokuProtocol

  const BOARD_SENT_SIZE := 723

  datatype SudokuStatus = SudokuOk | SudokuEndgame

  method FormatBoard(board: array<char>)
    requires board.Length == BOARD_SENT_SIZE
    modifies board
    ensures board[..PICTURE_SIZE] == Template() && board[PICTURE_SIZE] == NUL
  {
    var rows := [
      BOARD_ROW_SEP_CELL, BOARD_ROW, BOARD_ROW_SEP, BOARD_ROW, BOARD_ROW_SEP, BOARD_ROW,
      BOARD_ROW_SEP_CELL, BOARD_ROW, BOARD_ROW_SEP, BOARD_ROW, BOARD_ROW_SEP, BOARD_ROW,
      BOARD_ROW_SEP_CELL, BOARD_ROW, BOARD_ROW_SEP, BOARD_ROW, BOARD_ROW_SEP, BOARD_ROW,
      BOARD_ROW_SEP_CELL];
    assert rows == TemplateRows(ROWS);
    var text := Concat(rows);
    assert text == Template();
    forall p | 0 <= p < PICTURE_SIZE {
      board[p] := text[p];
    }
    board[PICTURE_SIZE] := NUL;
  }

  /** Between a slot and the next one to be visited there is no other slot. */
  lemma NextSlot(k: int, j: int, p: int)
    requires 1 <= k <= 9 && 1 <= j <= 9
    requires Slot(k, j) < p < (if j < 9 then Slot(k, j + 1) else Slot(k + 1, 1)) && p < PICTURE_SIZE
    ensures !IsSlot(p)
  {
    if j < 9 {
      assert p / CH_PER_ROW == 2 * k - 1 && 4 * j - 2 < p % CH_PER_ROW < 4 * j + 2;
    } else if p < CH_PER_ROW * (2 * k) {
      assert p / CH_PER_ROW == 2 * k - 1 && 34 < p % CH_PER_ROW;
    } else if p < CH_PER_ROW * (2 * k + 1) {
      assert p / CH_PER_ROW == 2 * k;
    } else {
      assert p / CH_PER_ROW == 2 * k + 1 && p % CH_PER_ROW < 2;
    }
  }

  lemma FirstSlot(p: int)
    requires 0 <= p < Slot(1, 1)
    ensures !IsSlot(p)
  {
  }

  lemma NoSlotBetween(k: int, j: int)
    requires 1 <= k <= 9 && 1 <= j <= 9
    ensures forall p :: Slot(k, j) < p < (if j < 9 then Slot(k, j + 1) else Slot(k + 1, 1)) && p < PICTURE_SIZE ==> !IsSlot(p)
  {
    hide IsSlot, Slot;
    forall p | Slot(k, j) < p < (if j < 9 then Slot(k, j + 1) else Slot(k + 1, 1)) && p < PICTURE_SIZE ensures !IsSlot(p) {
      NextSlot(k, j, p);
    }
  }

  /** What the drawing has at a slot, and what the template has there. */
  lemma AtSlot(g: Grid, k: int, j: int)
    requires 1 <= k <= 9 && 1 <= j <= 9
    ensures 0 <= Slot(k, j) < PICTURE_SIZE
    ensures PictureChar(g, Slot(k, j)) == CellChar(g[k - 1][j - 1]) && Template()[Slot(k, j)] == ' '
  {
    hide Template;
    SlotOfCell(k, j);
    TemplateAt(Slot(k, j));
  }

  /** Elsewhere, and before the first slot, the drawing is the template. */
  lemma Elsewhere(g: Grid)
    ensures forall p :: 0 <= p < PICTURE_SIZE && !IsSlot(p) ==> PictureChar(g, p) == Template()[p]
    ensures forall p :: 0 <= p < Slot(1, 1) ==> !IsSlot(p)
  {
    hide IsSlot, Template, TemplateRow;
    forall p | 0 <= p < PICTURE_SIZE && !IsSlot(p) ensures PictureChar(g, p) == Template()[p] {
      TemplateAt(p);
    }
    forall p | 0 <= p < Slot(1, 1) ensures !IsSlot(p) {
      FirstSlot(p);
    }
  }

  /** Draws the 81 cells into the template, moving four characters per cell and on to the
      next drawn row after the ninth. */
  method DrawBoard(sb: array<char>, board: Board)
    requires sb.Length == BOARD_SENT_SIZE && board.Valid()
    requires sb != board.board && sb != board.boardOriginal
    modifies sb
    ensures board.Valid()
    ensures sb[..PICTURE_SIZE] == Picture(board.cells) && sb[PICTURE_SIZE] == NUL
    ensures Depicts(sb[..722], board.cells)
  {
    hide Template, IsSlot, PictureChar, Depicts;
    FormatBoard(sb);
    ghost var g := board.cells;
    assert forall p :: 0 <= p < PICTURE_SIZE ==> sb[p] == sb[..PICTURE_SIZE][p] == Template()[p];
    Elsewhere(g);
    var i, j, k := 40, 0, 1;
    while i <= 680
      invariant 0 <= j <= 8 && 1 <= k <= 10 && i == Slot(k, j + 1)
      invariant board.Valid() && sb[PICTURE_SIZE] == NUL
      invariant forall p :: 0 <= p < PICTURE_SIZE ==>
        sb[p] == if p < i then PictureChar(g, p) else Template()[p]
    {
      ghost var row, col := k, j + 1;
      j := j + 1;
      var aux := board.ValueGet(k, j);
      AtSlot(g, k, j);
      if aux != '0' {
        sb[i] := aux;
      }
      assert sb[i] == PictureChar(g, i);
      if j == 9 {
        j := 0;
        k := k + 1;
        i := i + 2 + CH_PER_ROW;
      }
      i := i + 4;
      NoSlotBetween(row, col);
    }
    assert sb[..PICTURE_SIZE] == Picture(g);
    PictureDepicts(g);
  }

  method SendBoard(socket: Socket, board: Board)
    requires board.Valid() && !socket.skt.lossy
    modifies socket`status, socket.skt`outgoing
    ensures socket.skt.outgoing == old(socket.skt.outgoing) + Frame(Picture(board.cells))
  {
    var sb := new char[BOARD_SENT_SIZE];
    DrawBoard(sb, board);
    PictureNulFree(board.cells);
    CStrOf(sb[..], Picture(board.cells));
    SendString(socket, CStr(sb[..]));
  }

  /** One received command: the game moves and the answer goes out as one frame. */
  method ProcessCommand(self: ServerRecord, board: Board, skt: Socket)
    requires board.Valid() && Legal(self.Received()) && !skt.skt.lossy
    modifies board, board.board, self`status, skt`status, skt.skt`outgoing
    ensures board.Valid()
    ensures board.View() == Step(old(board.View()), old(self.Received())).0
    ensures skt.skt.outgoing == old(skt.skt.outgoing) + Frame(Step(old(board.View()), old(self.Received())).1)
    ensures self.status == if self.command == 'E' then ServerDisconnectedClient else old(self.status)
  {
    hide Picture, Frame, Consistent, SetCell;
    AnswerFits(board.View(), self.Received());
    match self.command
    case 'P' =>
      board.Put(self.row, self.col, self.value);
      if board.status == BoardNonModifiable {
        SendString(skt, MSG_NON_MODIFIABLE_CELL);
        board.status := BoardOk;
      } else {
        SendBoard(skt, board);
      }
    case 'V' =>
      board.Verify();
      if board.status == BoardInvalid {
        SendString(skt, MSG_ERROR_VERIFY);
      } else {
        SendString(skt, MSG_OK_VERIFY);
      }
    case 'R' =>
      board.Reset();
      SendBoard(skt, board);
    case 'G' =>
      SendBoard(skt, board);
    case _ =>
      if self.command == 'E' {
        self.status := ServerDisconnectedClient;
      }
      SendString(skt, MSG_INVALID_CMD);
  }

  function Frames(ms: seq<string>): seq<string> {
    seq(|ms|, k requires 0 <= k < |ms| => Frame(ms[k]))
  }

  lemma FramesSnoc(ms: seq<string>, m: string)
    ensures Concat(Frames(ms + [m])) == Concat(Frames(ms)) + Frame(m)
  {
    assert Frames(ms + [m]) == Frames(ms) + [Frame(m)];
    ConcatSnoc(Frames(ms), Frame(m));
  }

  /** All that goes back for the first n commands. */
  ghost function Sent(start: Game, cmds: seq<Command>, n: int): string
    requires AllLegal(cmds) && 0 <= n <= |cmds|
  {
    Concat(Frames(Answers(start, cmds[..n])))
  }

  lemma SentNothing(start: Game, cmds: seq<Command>)
    requires AllLegal(cmds)
    ensures After(start, cmds[..0]) == start && Sent(start, cmds, 0) == ""
  {
  }

  lemma SentSnoc(start: Game, cmds: seq<Command>, n: int)
    requires AllLegal(cmds) && 0 <= n < |cmds|
    ensures var (next, answer) := Step(After(start, cmds[..n]), cmds[n]);
      After(start, cmds[..n + 1]) == next && Sent(start, cmds, n + 1) == Sent(start, cmds, n) + Frame(answer)
  {
    AnswersSnoc(start, cmds[..n], cmds[n]);
    assert cmds[..n] + [cmds[n]] == cmds[..n + 1];
    FramesSnoc(Answers(start, cmds[..n]), Step(After(start, cmds[..n]), cmds[n]).1);
  }

  /** The next command of a stream that carries a list of them. */
  method ReceiveNext(self: ServerRecord, skt: Socket, ghost cmds: seq<Command>, ghost n: int)
    requires !skt.skt.lossy && 0 <= n <= |cmds| && AllEncodable(cmds)
    requires skt.skt.incoming == EncodeAll(cmds[n..])
    modifies self`command, self`row, self`col, self`value, skt`status, skt.skt`incoming
    ensures n < |cmds| ==>
      skt.status == SktReceptionSuccess && self.Received() == cmds[n] && skt.skt.incoming == EncodeAll(cmds[n + 1..])
    ensures n == |cmds| ==> skt.status == SktReceptionEnd && skt.skt.incoming == ""
  {
    if n < |cmds| {
      assert cmds[n..][1..] == cmds[n + 1..];
    }
    ReceiveCommand(skt, self, if n == |cmds| then Plain('V') else cmds[n], if n == |cmds| then "" else EncodeAll(cmds[n + 1..]));
  }

  /** The server loop: for any list of legal commands on the stream, the answers of the
      abstract game go back in order, one frame each, and the game ends when the stream does. */
  method RunServer(server: ServerRecord, socket: Socket, board: Board, ghost cmds: seq<Command>)
    returns (status: SudokuStatus)
    requires board.Valid() && board.View() == Start(board.clues) && !socket.skt.lossy
    requires AllLegal(cmds) && AllEncodable(cmds) && socket.skt.incoming == EncodeAll(cmds)
    requires socket.status == SktConnected && socket.skt.outgoing == ""
    modifies server, board, board.board, socket, socket.skt
    ensures status == SudokuEndgame && socket.status == SktShutdown && socket.skt.incoming == ""
    ensures socket.skt.outgoing == Concat(Frames(Answers(old(board.View()), cmds)))
    ensures board.Valid() && board.View() == After(old(board.View()), cmds)
  {
    hide Step, After, EncodeAll;
    status := SudokuOk;
    ghost var start := board.View();
    ghost var n := 0;
    SentNothing(start, cmds);
    assert cmds[0..] == cmds;
    ReceiveNext(server, socket, cmds, 0);
    while socket.status == SktReceptionSuccess
      invariant 0 <= n <= |cmds| && board.Valid() && board.View() == After(start, cmds[..n])
      invariant socket.skt.outgoing == Sent(start, cmds, n)
      invariant socket.status == if n < |cmds| then SktReceptionSuccess else SktReceptionEnd
      invariant n < |cmds| ==> server.Received() == cmds[n]
      invariant socket.skt.incoming == if n < |cmds| then EncodeAll(cmds[n + 1..]) else ""
      decreases |cmds| - n
    {
      SentSnoc(start, cmds, n);
      ProcessCommand(server, board, socket);
      n := n + 1;
      ReceiveNext(server, socket, cmds, n);
    }
    assert cmds[..n] == cmds;
    assert Sent(start, cmds, n) == Concat(Frames(Answers(start, cmds)));
    if socket.status == SktReceptionEnd {
      status := SudokuEndgame;
    }
    socket.status := SktShutdown;
  }
}
