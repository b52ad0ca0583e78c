/** The two processes of the game run together: every interleaving of their system calls
    and every way the kernel may split what is sent and received. */
module SudokuSession {
  import opened Text
  import opened SudokuRules
  import opened SudokuGame
  import opened SudokuProtocol
  import opened SudokuClient

  /** Where sudoku_play is. A queue lists the skt_send calls still to finish; an awaited
      reply first needs its three-byte header and then its body. */
  datatype ClientPc =
    | Prompt
    | Requesting(queue: seq<string>)
    | AwaitHeader(got: string)
    | AwaitBody(len: int, got: string)
    | ClientDone

  /** Where sudoku_run_server is. ServerDone is reached with SUDOKU_ENDGAME. */
  datatype ServerPc =
    | AwaitOp
    | AwaitArgs(got: string)
    | Answering(queue: seq<string>)
    | ServerDone

  datatype State = State(
    script: seq<string>,      // lines not typed yet
    client: ClientPc,
    shown: seq<string>,       // replies the client has printed
    toServer: string,         // bytes in flight
    toClient: string,
    closed: bool,             // the client shut the connection down
    server: ServerPc,
    game: Game,
    sent: seq<Command>,       // history: commands the client began to send
    answered: seq<string>)    // history: replies the server computed

  /** One system call of one process, with the count it returns. */
  datatype Label =
    | ReadLine
    | ClientSend(n: nat) | ClientRecv(n: nat)
    | ServerSend(n: nat) | ServerRecv | ServerEnd

  function Init(clues: Grid, lines: seq<string>): State {
    State(lines, Prompt, [], "", "", false, AwaitOp, Start(clues), [], [])
  }

  /** The skt_send calls of protocol_send_command. */
  function Calls(c: Command): seq<string>
    requires Encodable(c)
  {
    match c
    case PutAt(r, k, v) => [['P'], [r as char], [k as char], [v as char]]
    case Plain(op) => [[op]]
  }

  /** The queue after n bytes of its first string were accepted. */
  function Accepted(queue: seq<string>, n: nat): seq<string>
    requires queue != [] && n <= |queue[0]|
  {
    if n == |queue[0]| then queue[1..] else [queue[0][n..]] + queue[1..]
  }

  ghost predicate Enabled(s: State, l: Label) {
    match l
    case ReadLine => s.client == Prompt && (s.script != [] ==> IsLine(s.script[0]))
    case ClientSend(n) => s.client.Requesting? && s.client.queue != [] && 1 <= n <= |s.client.queue[0]|
    case ClientRecv(n) =>
      && 1 <= n <= |s.toClient|
      && (s.client.AwaitHeader? || s.client.AwaitBody?)
      && (s.client.AwaitHeader? ==> n <= 3 - |s.client.got|)
      && (s.client.AwaitBody? ==> n <= s.client.len - |s.client.got|)
    case ServerSend(n) => s.server.Answering? && s.server.queue != [] && 1 <= n <= |s.server.queue[0]|
    case ServerRecv => (s.server.AwaitOp? || s.server.AwaitArgs?) && s.toServer != ""
    case ServerEnd => (s.server.AwaitOp? || s.server.AwaitArgs?) && s.toServer == "" && s.closed
  }

  /** The client reads a line: it sends a command, ends the game, or reads on. */
  function Typing(s: State): State
    requires s.client == Prompt
  {
    if s.script == [] then s.(client := ClientDone, closed := true)
    else
      var next := s.(script := s.script[1..]);
      ParseIsLegal(s.script[0]);
      match Parse(s.script[0])
      case Valid(c) => next.(client := Requesting(Calls(c)), sent := s.sent + [c])
      case Exit => next.(client := ClientDone, closed := true)
      case _ => next
  }

  /** The client got a whole header or a whole body. */
  function Took(s: State, pc: ClientPc): State {
    match pc
    case AwaitHeader(got) =>
      if |got| < 3 then s.(client := pc)
      else if Atoi(got + [NUL]) == 0 then s.(client := Prompt)
      else s.(client := AwaitBody(Atoi(got + [NUL]), ""))
    case AwaitBody(len, got) =>
      if |got| < len || got == "" then s.(client := pc)
      else s.(client := Prompt, shown := s.shown + [CStr(Chop(got))])
    case _ => s.(client := pc)
  }

  /** The server has a whole command: it moves the game and starts on the reply. Only legal
      commands arrive, because the client sends no other. */
  ghost function Execute(s: State, c: Command): State {
    if !Legal(c) then s else
      var (game, reply) := Step(s.game, c);
      s.(game := game, answered := s.answered + [reply], server := Answering([Header(|reply|), reply]))
  }

  ghost function Apply(s: State, l: Label): State
    requires Enabled(s, l)
  {
    match l
    case ReadLine => Typing(s)
    case ClientSend(n) =>
      var queue := Accepted(s.client.queue, n);
      s.(toServer := s.toServer + s.client.queue[0][..n],
         client := if queue == [] then AwaitHeader("") else Requesting(queue))
    case ClientRecv(n) =>
      var got := s.client.got + s.toClient[..n];
      Took(s.(toClient := s.toClient[n..]), s.client.(got := got))
    case ServerSend(n) =>
      var queue := Accepted(s.server.queue, n);
      s.(toClient := s.toClient + s.server.queue[0][..n],
         server := if queue == [] then AwaitOp else Answering(queue))
    case ServerRecv =>
      var c := s.toServer[0];
      var next := s.(toServer := s.toServer[1..]);
      if s.server.AwaitOp? then
        if c == 'P' then next.(server := AwaitArgs("")) else Execute(next, Plain(c))
      else
        var got := s.server.got + [c];
        if |got| < 3 then next.(server := AwaitArgs(got))
        else Execute(next, PutAt(got[0] as int, got[1] as int, got[2] as int))
    case ServerEnd => s.(server := ServerDone)
  }

  /** A run: the labels are enabled one after the other. */
  ghost predicate CanRun(s: State, ls: seq<Label>)
    decreases |ls|
  {
    ls != [] ==> Enabled(s, ls[0]) && CanRun(Apply(s, ls[0]), ls[1..])
  }

  ghost function Run(s: State, ls: seq<Label>): State
    requires CanRun(s, ls)
    decreases |ls|
  {
    if ls == [] then s else Run(Apply(s, ls[0]), ls[1..])
  }

  // ---- What holds in every reachable state ----

  predicate NonEmpty(queue: seq<string>) {
    queue != [] && forall k :: 0 <= k < |queue| ==> queue[k] != ""
  }

  /** The server has executed the first n commands sent. */
  ghost predicate Settled(s: State, clues: Grid, n: int) {
    && AllLegal(s.sent) && 0 <= n <= |s.sent|
    && s.game == After(Start(clues), s.sent[..n])
    && s.answered == Answers(Start(clues), s.sent[..n])
  }

  /** Between rounds nothing is in flight and every reply has been shown. */
  ghost predicate BetweenRounds(s: State, clues: Grid) {
    && (s.client.Prompt? || s.client.ClientDone?)
    && s.toServer == "" && s.toClient == ""
    && Settled(s, clues, |s.sent|) && s.shown == Chopped(s.answered)
    && (s.closed <==> s.client.ClientDone?)
    && (s.server.AwaitOp? || (s.server.ServerDone? && s.closed))
  }

  function ServerGot(pc: ServerPc): string {
    match pc
    case AwaitArgs(got) => "P" + got
    case _ => ""
  }

  function ClientQueue(pc: ClientPc): seq<string> {
    if pc.Requesting? then pc.queue else []
  }

  function ServerQueue(pc: ServerPc): seq<string> {
    if pc.Answering? then pc.queue else []
  }

  /** The last command sent is on its way: what the server got, what is in flight and what
      is still to be sent make up its encoding. */
  ghost predicate RequestUnderWay(s: State, clues: Grid) {
    && (s.client == AwaitHeader("") || (s.client.Requesting? && NonEmpty(s.client.queue)))
    && s.toClient == "" && !s.closed
    && s.sent != [] && Settled(s, clues, |s.sent| - 1) && s.shown == Chopped(s.answered)
    && (s.server.AwaitOp? || (s.server.AwaitArgs? && |s.server.got| < 3))
    && Encodable(s.sent[|s.sent| - 1])
    && ServerGot(s.server) + s.toServer + Concat(ClientQueue(s.client)) == Encode(s.sent[|s.sent| - 1])
  }

  function ClientGot(pc: ClientPc, reply: string): string {
    match pc
    case AwaitHeader(got) => got
    case AwaitBody(_, got) => Header(|reply|) + got
    case _ => ""
  }

  /** The last reply is on its way: what the client got, what is in flight and what is still
      to be sent make up its frame. */
  ghost predicate ReplyUnderWay(s: State, clues: Grid) {
    && s.toServer == "" && !s.closed
    && s.sent != [] && Settled(s, clues, |s.sent|)
    && s.shown == Chopped(s.answered[..|s.answered| - 1])
    && var reply := s.answered[|s.answered| - 1];
    && Sendable(reply)
    && ((s.client.AwaitHeader? && |s.client.got| < 3) || (s.client.AwaitBody? && |s.client.got| < s.client.len == |reply|))
    && (s.server.AwaitOp? || (s.server.Answering? && NonEmpty(s.server.queue)))
    && ClientGot(s.client, reply) + s.toClient + Concat(ServerQueue(s.server)) == Frame(reply)
  }

  /** Sent and still to be sent make up the commands of the whole script. */
  ghost predicate OnScript(s: State, lines: seq<string>) {
    && AllLines(s.script)
    && Script(lines) == s.sent + (if s.client.ClientDone? then [] else Script(s.script))
  }

  ghost predicate Inv(s: State, clues: Grid, lines: seq<string>) {
    OnScript(s, lines) && (BetweenRounds(s, clues) || RequestUnderWay(s, clues) || ReplyUnderWay(s, clues))
  }

  // ---- Every step keeps the invariant ----

  lemma NonEmptyConcat(queue: seq<string>)
    ensures NonEmpty(queue) ==> Concat(queue) != ""
  {
  }

  lemma AcceptedConcat(queue: seq<string>, n: nat)
    requires NonEmpty(queue) && 1 <= n <= |queue[0]|
    ensures Concat(queue) == queue[0][..n] + Concat(Accepted(queue, n))
    ensures Accepted(queue, n) == [] || NonEmpty(Accepted(queue, n))
  {
    var first, rest := queue[0], queue[1..];
    var tail := Concat(rest);
    assert Concat(queue) == first + tail;
    if n < |first| {
      var left := [first[n..]] + rest;
      assert left[1..] == rest;
      assert Concat(left) == first[n..] + tail;
      assert first[..n] + (first[n..] + tail) == first + tail;
    } else {
      assert first[..n] == first;
    }
  }

  lemma CallsConcat(c: Command)
    requires Encodable(c)
    ensures NonEmpty(Calls(c)) && Concat(Calls(c)) == Encode(c)
  {
    match c
    case PutAt(r, k, v) =>
      var a, b, d, e := ['P'], [r as char], [k as char], [v as char];
      assert Calls(c) == [a] + ([b] + ([d] + [e]));
      assert Concat([e]) == e;
      assert Concat([d, e]) == d + e;
      assert Concat([b, d, e]) == b + (d + e);
    case Plain(op) =>
      assert Concat([[op]]) == [op];
  }

  lemma ReadLineKeeps(s: State, clues: Grid, lines: seq<string>)
    requires Inv(s, clues, lines) && s.client == Prompt
    ensures Inv(Typing(s), clues, lines)
  {
    hide After, Answers, Parse, Encode, Concat, Chopped, Calls;
    assert BetweenRounds(s, clues);
    if s.script != [] {
      ParseIsLegal(s.script[0]);
      if Parse(s.script[0]).Valid? {
        TypedCommand(s, Parse(s.script[0]).c, clues, lines);
      } else {
        assert BetweenRounds(Typing(s), clues);
      }
    }
  }

  lemma ScriptOfCommand(script: seq<string>, c: Command)
    requires script != [] && Parse(script[0]) == Valid(c)
    ensures Script(script) == [c] + Script(script[1..])
  {
    hide Parse;
  }

  lemma TypedCommand(s: State, c: Command, clues: Grid, lines: seq<string>)
    requires OnScript(s, lines) && BetweenRounds(s, clues) && s.client == Prompt && s.script != []
    requires Parse(s.script[0]) == Valid(c) && Legal(c) && Encodable(c)
    ensures Inv(Typing(s), clues, lines)
  {
    hide After, Answers, Parse, Encode, Chopped, Calls, IsLine, Script, Concat;
    var t := Typing(s);
    ScriptOfCommand(s.script, c);
    assert t.sent == s.sent + [c];
    assert t.sent[..|s.sent|] == s.sent == s.sent[..|s.sent|];
    CallsConcat(c);
    assert "" + "" + Concat(Calls(c)) == Encode(c);
    assert RequestUnderWay(t, clues);
    assert t.sent + Script(t.script) == s.sent + ([c] + Script(t.script));
  }

  lemma ClientSendKeeps(s: State, n: nat, clues: Grid, lines: seq<string>)
    requires Inv(s, clues, lines) && Enabled(s, ClientSend(n))
    ensures Inv(Apply(s, ClientSend(n)), clues, lines)
  {
    hide After, Answers, Encode, Script;
    assert RequestUnderWay(s, clues);
    AcceptedConcat(s.client.queue, n);
    var t := Apply(s, ClientSend(n));
    assert RequestUnderWay(t, clues);
  }

  lemma ServerSendKeeps(s: State, n: nat, clues: Grid, lines: seq<string>)
    requires Inv(s, clues, lines) && Enabled(s, ServerSend(n))
    ensures Inv(Apply(s, ServerSend(n)), clues, lines)
  {
    hide After, Answers, Frame, Script, Chopped;
    assert ReplyUnderWay(s, clues);
    AcceptedConcat(s.server.queue, n);
    var t := Apply(s, ServerSend(n));
    assert ReplyUnderWay(t, clues);
  }

  /** Executing the command that was under way puts its reply under way. */
  lemma ExecuteKeeps(s: State, clues: Grid, lines: seq<string>)
    requires OnScript(s, lines) && s.client == AwaitHeader("") && s.toClient == "" && s.toServer == "" && !s.closed
    requires s.sent != [] && Settled(s, clues, |s.sent| - 1) && s.shown == Chopped(s.answered)
    ensures Inv(Execute(s, s.sent[|s.sent| - 1]), clues, lines)
    ensures ReplyUnderWay(Execute(s, s.sent[|s.sent| - 1]), clues)
  {
    hide After, Answers, Script, Step;
    var before, c := s.sent[..|s.sent| - 1], s.sent[|s.sent| - 1];
    assert s.sent == before + [c] == s.sent[..|s.sent|];
    AnswersSnoc(Start(clues), before, c);
    AnswerFits(s.game, c);
    var t := Execute(s, c);
    var reply := t.answered[|t.answered| - 1];
    assert t.answered[..|t.answered| - 1] == s.answered;
    assert Concat([reply]) == reply;
    assert [Header(|reply|), reply][1..] == [reply];
    assert Concat([Header(|reply|), reply]) == Header(|reply|) + reply;
    assert ReplyUnderWay(t, clues);
  }

  lemma ServerRecvKeeps(s: State, clues: Grid, lines: seq<string>)
    requires Inv(s, clues, lines) && Enabled(s, ServerRecv)
    ensures Inv(Apply(s, ServerRecv), clues, lines)
  {
    hide After, Answers, Script, Chopped, Execute, Encode, Concat;
    assert RequestUnderWay(s, clues);
    if s.server.AwaitOp? {
      OpReceived(s, clues, lines);
    } else {
      ArgReceived(s, clues, lines);
    }
  }

  lemma OpReceived(s: State, clues: Grid, lines: seq<string>)
    requires OnScript(s, lines) && RequestUnderWay(s, clues) && s.toServer != "" && s.server.AwaitOp?
    ensures Inv(Apply(s, ServerRecv), clues, lines)
  {
    hide After, Answers, Script, Chopped, Execute, Concat, IsLine, Encode, ReplyUnderWay, BetweenRounds;
    var cmd := s.sent[|s.sent| - 1];
    var c, rest := s.toServer[0], s.toServer[1..];
    var queue := Concat(ClientQueue(s.client));
    var next := s.(toServer := rest);
    assert "" + s.toServer + queue == [c] + (rest + queue);
    OpDecides(cmd, c, rest + queue);
    if c == 'P' {
      assert "P" + "" + rest + queue == [c] + (rest + queue);
      assert RequestUnderWay(next.(server := AwaitArgs("")), clues);
    } else {
      assert |rest + queue| == 0;
      NonEmptyConcat(ClientQueue(s.client));
      ExecuteKeeps(next, clues, lines);
    }
  }

  /** The first byte tells whether arguments follow. */
  lemma OpDecides(cmd: Command, c: char, rest: string)
    requires Encodable(cmd) && Encode(cmd) == [c] + rest
    ensures c != 'P' ==> rest == "" && cmd == Plain(c)
  {
    assert Encode(cmd)[0] == c;
    assert |Encode(cmd)| == 1 + |rest|;
  }

  lemma ArgReceived(s: State, clues: Grid, lines: seq<string>)
    requires OnScript(s, lines) && RequestUnderWay(s, clues) && s.toServer != "" && s.server.AwaitArgs?
    ensures Inv(Apply(s, ServerRecv), clues, lines)
  {
    hide After, Answers, Script, Chopped, Execute, Concat, IsLine, ReplyUnderWay, BetweenRounds, Encode;
    var cmd := s.sent[|s.sent| - 1];
    var c, rest := s.toServer[0], s.toServer[1..];
    var queue := Concat(ClientQueue(s.client));
    var next := s.(toServer := rest);
    var got := s.server.got + [c];
    assert "P" + s.server.got + s.toServer + queue == "P" + got + (rest + queue);
    if |got| < 3 {
      assert "P" + got + (rest + queue) == "P" + got + rest + queue;
      assert RequestUnderWay(next.(server := AwaitArgs(got)), clues);
    } else {
      ArgsDecide(cmd, got, rest + queue);
      NonEmptyConcat(ClientQueue(s.client));
      ExecuteKeeps(next, clues, lines);
    }
  }

  /** Three argument bytes complete a put. */
  lemma ArgsDecide(cmd: Command, got: string, rest: string)
    requires Encodable(cmd) && Encode(cmd) == "P" + got + rest && |got| == 3
    ensures rest == "" && cmd == PutAt(got[0] as int, got[1] as int, got[2] as int)
  {
    var e := Encode(cmd);
    assert e[0] == 'P' && e[1] == got[0] && e[2] == got[1] && e[3] == got[2];
    assert |e| == 4;
  }

  lemma {:induction false} CStrWhole(s: string)
    requires NulFree(s)
    ensures CStr(s) == s
  {
    if s != "" {
      assert s[0] in s;
      CStrWhole(s[1..]);
    }
  }

  lemma ClientRecvKeeps(s: State, n: nat, clues: Grid, lines: seq<string>)
    requires Inv(s, clues, lines) && Enabled(s, ClientRecv(n))
    ensures Inv(Apply(s, ClientRecv(n)), clues, lines)
  {
    hide After, Answers, Script, Header, Atoi, Concat, Frame, Chopped, CStr, IsLine;
    assert ReplyUnderWay(s, clues);
    if s.client.AwaitHeader? {
      HeaderReceived(s, n, clues, lines);
    } else {
      BodyReceived(s, n, clues, lines);
    }
  }

  lemma HeaderReceived(s: State, n: nat, clues: Grid, lines: seq<string>)
    requires OnScript(s, lines) && ReplyUnderWay(s, clues) && Enabled(s, ClientRecv(n)) && s.client.AwaitHeader?
    ensures Inv(Apply(s, ClientRecv(n)), clues, lines)
  {
    hide After, Answers, Script, Header, Atoi, Concat, Chopped, CStr, IsLine;
    var reply := s.answered[|s.answered| - 1];
    var queue := Concat(ServerQueue(s.server));
    var got, left := s.client.got + s.toClient[..n], s.toClient[n..];
    var t := Apply(s, ClientRecv(n));
    assert s.client.got + s.toClient + queue == got + (left + queue) == got + left + queue;
    if |got| == 3 {
      FrameParts(reply, "");
      assert Frame(reply) + "" == Frame(reply);
      HeaderDecodes(|reply|);
      assert Header(|reply|) + "" == got;
      assert t.client == AwaitBody(|reply|, "");
    }
    assert ReplyUnderWay(t, clues);
  }

  lemma BodyReceived(s: State, n: nat, clues: Grid, lines: seq<string>)
    requires OnScript(s, lines) && ReplyUnderWay(s, clues) && Enabled(s, ClientRecv(n)) && s.client.AwaitBody?
    ensures Inv(Apply(s, ClientRecv(n)), clues, lines)
  {
    hide After, Answers, Script, Header, Atoi, Concat, Chopped, CStr, IsLine;
    var reply := s.answered[|s.answered| - 1];
    var queue := Concat(ServerQueue(s.server));
    var got, left := s.client.got + s.toClient[..n], s.toClient[n..];
    var t := Apply(s, ClientRecv(n));
    BodySplit(Header(|reply|), s.client.got, s.toClient, n, queue, reply);
    if |got| == |reply| {
      ReplyComplete(s, t, got, queue, clues);
    } else {
      assert ReplyUnderWay(t, clues);
    }
  }

  lemma BodySplit(header: string, got: string, stream: string, n: nat, queue: string, reply: string)
    requires n <= |stream| && header + got + stream + queue == header + reply
    ensures got + stream[..n] + stream[n..] + queue == reply
    ensures header + (got + stream[..n]) + stream[n..] + queue == header + reply
  {
    assert stream == stream[..n] + stream[n..];
    assert (header + reply)[|header|..] == reply;
    assert (header + got + stream + queue)[|header|..] == got + stream[..n] + stream[n..] + queue;
    assert header + (got + stream[..n]) + stream[n..] + queue == header + (got + stream[..n] + stream[n..] + queue);
  }

  /** With the last byte of the body the round is over. */
  lemma ReplyComplete(s: State, t: State, got: string, queue: string, clues: Grid)
    requires ReplyUnderWay(s, clues) && queue == Concat(ServerQueue(s.server))
    requires var reply := s.answered[|s.answered| - 1];
      got + t.toClient + queue == reply && |got| == |reply|
    requires t == s.(toClient := t.toClient, client := Prompt, shown := s.shown + [CStr(Chop(got))])
    ensures BetweenRounds(t, clues)
  {
    hide After, Answers, Frame, Concat;
    var reply := s.answered[|s.answered| - 1];
    assert |got + t.toClient + queue| == |reply|;
    assert queue == "" && t.toClient == "" && got + "" + "" == got;
    NonEmptyConcat(ServerQueue(s.server));
    assert NulFree(Chop(reply));
    CStrWhole(Chop(reply));
    assert Chopped(s.answered) == Chopped(s.answered[..|s.answered| - 1]) + [Chop(reply)];
  }

  lemma StepKeeps(s: State, l: Label, clues: Grid, lines: seq<string>)
    requires Inv(s, clues, lines) && Enabled(s, l)
    ensures Inv(Apply(s, l), clues, lines)
  {
    match l
    case ReadLine => ReadLineKeeps(s, clues, lines);
    case ClientSend(n) => ClientSendKeeps(s, n, clues, lines);
    case ClientRecv(n) => ClientRecvKeeps(s, n, clues, lines);
    case ServerSend(n) => ServerSendKeeps(s, n, clues, lines);
    case ServerRecv => ServerRecvKeeps(s, clues, lines);
    case ServerEnd =>
      hide After, Answers, Script, Chopped;
      assert BetweenRounds(s, clues);
      assert BetweenRounds(Apply(s, l), clues);
  }

  lemma {:induction false} RunKeeps(s: State, ls: seq<Label>, clues: Grid, lines: seq<string>)
    requires Inv(s, clues, lines) && CanRun(s, ls)
    ensures Inv(Run(s, ls), clues, lines)
    decreases |ls|
  {
    if ls != [] {
      StepKeeps(s, ls[0], clues, lines);
      RunKeeps(Apply(s, ls[0]), ls[1..], clues, lines);
    }
  }

  lemma InitInv(clues: Grid, lines: seq<string>)
    requires AllLines(lines)
    ensures Inv(Init(clues, lines), clues, lines)
  {
    var s := Init(clues, lines);
    assert s.sent + Script(s.script) == Script(lines);
    assert BetweenRounds(s, clues);
  }

  // ---- Progress ----

  /** No process can make another call. */
  ghost predicate Final(s: State) {
    s.client.ClientDone? && s.server.ServerDone?
  }

  /** As long as the two processes are not both done, one of them can go on. */
  lemma NotStuck(s: State, clues: Grid, lines: seq<string>) returns (l: Label)
    requires Inv(s, clues, lines) && !Final(s)
    ensures Enabled(s, l)
  {
    hide After, Answers, Script, Chopped, IsLine, Header, Encode;
    if BetweenRounds(s, clues) {
      l := if s.client.Prompt? then ReadLine else ServerEnd;
      assert s.script != [] ==> IsLine(s.script[0]);
    } else if RequestUnderWay(s, clues) {
      l := if s.client.Requesting? then ClientSend(1) else ServerRecv;
      RequestNotEmpty(s, clues);
    } else {
      l := if s.server.Answering? then ServerSend(1) else ClientRecv(1);
      ReplyNotEmpty(s, clues);
    }
  }

  /** An opening P with fewer than three arguments is no whole command. */
  lemma PartIsNotWhole(got: string, cmd: Command)
    requires Encodable(cmd) && (got == "" || (got[0] == 'P' && |got| <= 3))
    ensures got != Encode(cmd)
  {
  }

  lemma RequestNotEmpty(s: State, clues: Grid)
    requires RequestUnderWay(s, clues)
    ensures s.client.Requesting? || s.toServer != ""
  {
    hide After, Answers, Chopped;
    var cmd, got := s.sent[|s.sent| - 1], ServerGot(s.server);
    assert got + "" + "" == got;
    PartIsNotWhole(got, cmd);
  }

  lemma ReplyNotEmpty(s: State, clues: Grid)
    requires ReplyUnderWay(s, clues)
    ensures s.server.Answering? || s.toClient != ""
  {
    hide After, Answers, Chopped;
    if s.server == AwaitOp {
      var reply := s.answered[|s.answered| - 1];
      assert |ClientGot(s.client, reply) + s.toClient + ""| == |Frame(reply)| == 3 + |reply|;
    }
  }

  const LINE_WEIGHT := 3000
  const ANSWER_WEIGHT := 2200

  /** An upper bound on the calls still to be made. */
  function Remaining(s: State): nat {
    LINE_WEIGHT * |s.script|
    + 2 * |Concat(ClientQueue(s.client))| + |s.toServer|
    + (if |s.answered| < |s.sent| then ANSWER_WEIGHT else 0)
    + 2 * |Concat(ServerQueue(s.server))| + |s.toClient|
    + (if s.client.ClientDone? then 0 else 1) + (if s.server.ServerDone? then 0 else 1)
  }

  /** Executing a command costs less than the weight it carried. */
  lemma ExecuteRemaining(s: State, c: Command)
    requires |s.answered| < |s.sent| <= |s.answered| + 1 && ServerQueue(s.server) == [] && !s.server.ServerDone?
    ensures Remaining(Execute(s, c)) <= Remaining(s)
  {
    hide Step, ClientQueue, Header;
    if Legal(c) {
      AnswerFits(s.game, c);
      var reply := Step(s.game, c).1;
      assert [Header(|reply|), reply][1..] == [reply];
      assert Concat([reply]) == reply;
      assert Concat([Header(|reply|), reply]) == Header(|reply|) + reply;
    }
  }

  lemma ReadLineRemaining(s: State)
    requires s.client == Prompt && |s.answered| == |s.sent|
    ensures Remaining(Typing(s)) < Remaining(s)
  {
    hide Parse, Calls, Concat, Encode;
    if s.script != [] {
      ParseIsLegal(s.script[0]);
      if Parse(s.script[0]).Valid? {
        var c := Parse(s.script[0]).c;
        CallsConcat(c);
        EncodeLength(c);
      }
    }
  }

  lemma EncodeLength(c: Command)
    requires Encodable(c)
    ensures |Encode(c)| <= 4
  {
  }

  lemma TookRemaining(s: State, pc: ClientPc)
    requires (s.client.AwaitHeader? || s.client.AwaitBody?) && (pc.AwaitHeader? || pc.AwaitBody?)
    ensures Remaining(Took(s, pc)) <= Remaining(s)
  {
    hide Concat, CStr, Atoi, Chop;
  }

  lemma ClientRecvRemaining(s: State, n: nat)
    requires Enabled(s, ClientRecv(n))
    ensures Remaining(Apply(s, ClientRecv(n))) < Remaining(s)
  {
    hide Concat, CStr, Atoi, Took, Chop;
    var next := s.(toClient := s.toClient[n..]);
    assert Remaining(next) < Remaining(s);
    TookRemaining(next, s.client.(got := s.client.got + s.toClient[..n]));
  }

  lemma ServerRecvRemaining(s: State, clues: Grid)
    requires RequestUnderWay(s, clues) && s.toServer != ""
    ensures Remaining(Apply(s, ServerRecv)) < Remaining(s)
  {
    hide After, Chopped, Execute, Concat;
    var next := s.(toServer := s.toServer[1..]);
    assert Remaining(next) < Remaining(s);
    var c := s.toServer[0];
    if s.server.AwaitOp? {
      if c != 'P' {
        ExecuteRemaining(next, Plain(c));
      }
    } else if |s.server.got| == 2 {
      var got := s.server.got + [c];
      ExecuteRemaining(next, PutAt(got[0] as int, got[1] as int, got[2] as int));
    }
  }

  /** Every step brings the run closer to its end. */
  lemma StepRemaining(s: State, l: Label, clues: Grid, lines: seq<string>)
    requires Inv(s, clues, lines) && Enabled(s, l)
    ensures Remaining(Apply(s, l)) < Remaining(s)
  {
    hide After, Script, Chopped, IsLine, Header, Execute, Typing, Took, Concat;
    match l
    case ReadLine => ReadLineRemaining(s);
    case ClientSend(n) => AcceptedConcat(s.client.queue, n);
    case ClientRecv(n) => ClientRecvRemaining(s, n);
    case ServerSend(n) => AcceptedConcat(s.server.queue, n);
    case ServerRecv => ServerRecvRemaining(s, clues);
    case ServerEnd =>
  }

  lemma {:induction false} RunBound(s: State, ls: seq<Label>, clues: Grid, lines: seq<string>)
    requires Inv(s, clues, lines) && CanRun(s, ls)
    ensures |ls| + Remaining(Run(s, ls)) <= Remaining(s)
    decreases |ls|
  {
    if ls != [] {
      StepKeeps(s, ls[0], clues, lines);
      StepRemaining(s, ls[0], clues, lines);
      RunBound(Apply(s, ls[0]), ls[1..], clues, lines);
    }
  }

  // ---- The main results ----

  /** Every run, whatever the interleaving and the fragmentation: what the client has shown
      so far is a prefix of the abstract game's answers to the script, at most one command
      waits for its reply, and at the prompt nothing is in flight. */
  lemma SessionSafety(clues: Grid, lines: seq<string>, ls: seq<Label>)
    requires AllLines(lines) && CanRun(Init(clues, lines), ls)
    ensures var s := Run(Init(clues, lines), ls);
      var expected := Chopped(Answers(Start(clues), Script(lines)));
      && |s.shown| <= |s.sent| <= |s.shown| + 1
      && s.sent <= Script(lines) && s.shown <= expected
      && (s.client.Prompt? ==> s.toServer == "" && s.toClient == "" && |s.shown| == |s.sent|)
  {
    var s := Run(Init(clues, lines), ls);
    InitInv(clues, lines);
    RunKeeps(Init(clues, lines), ls, clues, lines);
    ShownIsPrefix(s, clues, lines);
  }

  /** Shown replies are always the first answers to the script. */
  lemma ShownIsPrefix(s: State, clues: Grid, lines: seq<string>)
    requires Inv(s, clues, lines)
    ensures |s.shown| <= |s.sent| <= |s.shown| + 1 && s.sent <= Script(lines)
    ensures s.shown == Chopped(Answers(Start(clues), Script(lines)))[..|s.shown|]
    ensures BetweenRounds(s, clues) ==> |s.shown| == |s.sent| && s.game == After(Start(clues), s.sent)
  {
    hide After, Answers, Script, IsLine, Header, Encode, Frame, Concat;
    var n := |s.shown|;
    assert s.sent[..|s.sent|] == s.sent;
    assert s.shown == Chopped(s.answered[..n]);
    AnswersPrefix(Start(clues), s.sent[..|s.answered|], Script(lines));
    assert s.answered[..n] == Answers(Start(clues), Script(lines))[..n];
  }

  /** No reachable state is stuck, and no run is longer than a bound fixed by the script. */
  lemma SessionProgress(clues: Grid, lines: seq<string>, ls: seq<Label>) returns (l: Label)
    requires AllLines(lines) && CanRun(Init(clues, lines), ls)
    ensures |ls| <= LINE_WEIGHT * |lines| + 2
    ensures !Final(Run(Init(clues, lines), ls)) ==> Enabled(Run(Init(clues, lines), ls), l)
  {
    var s := Run(Init(clues, lines), ls);
    InitInv(clues, lines);
    RunKeeps(Init(clues, lines), ls, clues, lines);
    RunBound(Init(clues, lines), ls, clues, lines);
    l := ReadLine;
    if !Final(s) {
      l := NotStuck(s, clues, lines);
    }
  }

  /** A run that cannot go on has played the whole script: all replies shown, in order, the
      server ended by the end of the stream with the abstract game's final board, and both
      channels empty. */
  lemma SessionComplete(clues: Grid, lines: seq<string>, ls: seq<Label>)
    requires AllLines(lines) && CanRun(Init(clues, lines), ls)
    requires forall l :: !Enabled(Run(Init(clues, lines), ls), l)
    ensures var s := Run(Init(clues, lines), ls);
      && Final(s) && s.toServer == "" && s.toClient == ""
      && s.sent == Script(lines) && s.shown == Chopped(Answers(Start(clues), Script(lines)))
      && s.game == After(Start(clues), Script(lines))
  {
    var s := Run(Init(clues, lines), ls);
    InitInv(clues, lines);
    RunKeeps(Init(clues, lines), ls, clues, lines);
    if !Final(s) {
      var l := NotStuck(s, clues, lines);
    }
    assert BetweenRounds(s, clues);
    ShownIsPrefix(s, clues, lines);
  }
}
