/** One client of the directory server and the server thread that attends it: two processes
    that take turns over a pair of byte streams. The shared directories come and go as
    parameters, so that many sessions can be run together. */
module FtpSession {
  import opened Text
  import opened Lines
  import opened FtpDirectories
  import opened FtpCommand

  /** What the thread does once the string it is sending is out. */
  datatype After = ThenReceive | ThenSize | ThenEnd | ThenClose

  /** Where respond_client is. Acting, AtSize and AtList are the points just before a lock is
      taken or a reply is composed. */
  datatype ServerPc =
    | Receiving(got: string)
    | Acting(cmd: Cmd)
    | Sending(rest: string, after: After)
    | AtSize
    | AtList
    | Closed

  /** Where run_client is. */
  datatype ClientPc =
    | AwaitHello(got: string)
    | Idle
    | Asking(rest: string)
    | AwaitReply(got: string)
    | AwaitList(got: string)
    | Leaving(rest: string)
    | Left

  /** A query answered: the effect it had on the directories and the lines the client read. */
  datatype Exchange = Exchange(query: string, effect: Effect, reply: seq<string>)

  datatype Session = Session(
    script: seq<string>,          // lines not typed yet
    client: ClientPc,
    seen: seq<string>,            // lines read for the current query
    toServer: string,             // bytes in flight
    toClient: string,
    server: ServerPc,
    login: Login,
    query: string,                // history: the current query,
    effect: Effect,               // what it did to the directories so far,
    said: seq<string>,            // the lines the server decided to send for it,
    dialogue: seq<Exchange>)      // and all the queries answered before

  /** What an observer of this client and of the locks sees. */
  datatype Event = Ask(query: string) | Took(effect: Effect) | Told(reply: seq<string>)

  datatype Action =
    | ReadLine | ClientSend(n: nat) | ClientRecv
    | ServerSend(n: nat) | ServerRecv | ServerAct

  datatype Outcome = Outcome(session: Session, dirs: seq<string>, events: seq<Event>)

  ghost function Start(cfg: Messages, script: seq<string>): Session
    requires Complete(cfg)
  {
    Session(script, AwaitHello(""), [], "", "", Sending(Hello(cfg), ThenReceive), NOBODY, "", NoEffect, [], [])
  }

  function CmdOf(query: string): Cmd {
    if query == "" then Invalid else Parse(query)
  }

  /** A bare MKD of a logged-in client would take the last character off an empty string. */
  predicate Undefined(s: Session) {
    s.server == Acting(Mkd("")) && s.login.logged
  }

  ghost predicate Enabled(s: Session, a: Action) {
    match a
    case ReadLine => s.client.Idle?
    case ClientSend(n) => (s.client.Asking? || s.client.Leaving?) && 1 <= n <= |s.client.rest|
    case ClientRecv => (s.client.AwaitHello? || s.client.AwaitReply? || s.client.AwaitList?) && s.toClient != ""
    case ServerSend(n) => s.server.Sending? && 1 <= n <= |s.server.rest|
    case ServerRecv => s.server.Receiving? && s.toServer != ""
    case ServerAct => (s.server.Acting? || s.server.AtSize? || s.server.AtList?) && !Undefined(s)
  }

  // ---- The client's steps ----

  function ReadLineStep(s: Session): (Session, seq<Event>) {
    if s.script == [] || s.script[0] == "" then
      (s.(script := if s.script == [] then [] else s.script[1..], client := Leaving("\n")), [])
    else
      var query := s.script[0] + "\n";
      (s.(script := s.script[1..], client := Asking(query), seen := [], query := query, effect := NoEffect, said := []),
       [Ask(query)])
  }

  /** The reply is complete. */
  function Finish(s: Session, seen: seq<string>): (Session, seq<Event>) {
    (s.(client := Idle, seen := seen, dialogue := s.dialogue + [Exchange(s.query, s.effect, seen)]), [Told(seen)])
  }

  /** One byte of receive_string, and what follows when it ends a line. */
  function ClientRecvStep(s: Session): (Session, seq<Event>)
    requires (s.client.AwaitHello? || s.client.AwaitReply? || s.client.AwaitList?) && s.toClient != ""
  {
    var c := s.toClient[0];
    var next := s.(toClient := s.toClient[1..]);
    var got := s.client.got + [c];
    if c != '\n' then (next.(client := s.client.(got := got)), [])
    else if s.client.AwaitHello? then (next.(client := Idle), [])
    else
      var seen := s.seen + [got];
      if Code(got) == "226" && s.client.AwaitList? then Finish(next, seen)
      else if Code(got) == "150" || s.client.AwaitList? then (next.(client := AwaitList(""), seen := seen), [])
      else Finish(next, seen)
  }

  // ---- The server's steps ----

  function ServerRecvStep(s: Session): Session
    requires s.server.Receiving? && s.toServer != ""
  {
    var c := s.toServer[0];
    var next := s.(toServer := s.toServer[1..]);
    var got := s.server.got + [c];
    if c != '\n' then next.(server := Receiving(got))
    else if |got| > 1 then next.(server := Acting(Parse(got)))
    else next.(server := Closed)
  }

  ghost function Say(s: Session, lines: seq<string>, after: After): Session {
    s.(said := s.said + lines, server := Sending(Concat(lines), after))
  }

  ghost function SayEnd(cfg: Messages, s: Session): Session
    requires Complete(cfg)
  {
    Say(s, [Format("226", Message(cfg, ListEnd))], ThenReceive)
  }

  ghost function ServerSendStep(cfg: Messages, s: Session, n: nat): Session
    requires Complete(cfg) && s.server.Sending? && n <= |s.server.rest|
  {
    var next := s.(toClient := s.toClient + s.server.rest[..n]);
    if n < |s.server.rest| then next.(server := Sending(s.server.rest[n..], s.server.after))
    else match s.server.after
      case ThenReceive => next.(server := Receiving(""))
      case ThenSize => next.(server := AtSize)
      case ThenEnd => SayEnd(cfg, next)
      case ThenClose => next.(server := Closed)
  }

  /** add_directory and remove_directory, and the effect they report. */
  function DirectoryStep(dirs: seq<string>, c: Cmd): (seq<string>, Effect) {
    match c
    case Mkd(a) => if a in dirs then (dirs, AlreadyThere(a)) else (Insert(dirs, a), Added(a))
    case Rmd(a) => if a in dirs then (Erase(dirs, a), Removed(a)) else (dirs, NotThere(a))
    case _ => (dirs, NoEffect)
  }

  ghost function Act(cfg: Messages, dirs: seq<string>, s: Session): Outcome
    requires Complete(cfg) && s.server.Acting?
  {
    var c := s.server.cmd;
    if !Touches(s.login, c) then
      var reply := Reply(cfg, s.login, c, NoEffect);
      Outcome(Say(s, reply, if c.Quit? then ThenClose else ThenReceive).(login := LoginAfter(cfg, s.login, c)), dirs, [])
    else if c.List? then
      Outcome(Say(s, [Format("150", Message(cfg, ListBegin))], ThenSize), dirs, [])
    else
      var (next, effect) := DirectoryStep(dirs, c);
      Outcome(Say(s.(effect := effect), Reply(cfg, s.login, c, effect), ThenReceive), next, [Took(effect)])
  }

  ghost function ServerActStep(cfg: Messages, dirs: seq<string>, s: Session): Outcome
    requires Complete(cfg) && (s.server.Acting? || s.server.AtSize? || s.server.AtList?)
  {
    match s.server
    case AtSize =>
      if |dirs| > 0 then Outcome(s.(server := AtList), dirs, [])
      else Outcome(SayEnd(cfg, s.(effect := Listed([]))), dirs, [Took(Listed([]))])
    case AtList =>
      var next := s.(effect := Listed(dirs));
      Outcome(if Listing(dirs) == "" then SayEnd(cfg, next) else Say(next, ListLines(dirs), ThenEnd), dirs, [Took(Listed(dirs))])
    case _ => Act(cfg, dirs, s)
  }

  ghost function Apply(cfg: Messages, dirs: seq<string>, s: Session, a: Action): Outcome
    requires Complete(cfg) && Enabled(s, a)
  {
    match a
    case ReadLine => var (t, es) := ReadLineStep(s); Outcome(t, dirs, es)
    case ClientSend(n) =>
      var rest := s.client.rest[n..];
      var next := s.(toServer := s.toServer + s.client.rest[..n]);
      Outcome(
        next.(client := if s.client.Asking? then (if rest == "" then AwaitReply("") else Asking(rest))
                        else (if rest == "" then Left else Leaving(rest))), dirs, [])
    case ClientRecv => var (t, es) := ClientRecvStep(s); Outcome(t, dirs, es)
    case ServerSend(n) => Outcome(ServerSendStep(cfg, s, n), dirs, [])
    case ServerRecv => Outcome(ServerRecvStep(s), dirs, [])
    case ServerAct => ServerActStep(cfg, dirs, s)
  }

  // ---- What holds of a session in every run ----

  /** Typed lines have no newline, and nothing but the end or an empty line follows a QUIT. */
  ghost predicate GoodScript(script: seq<string>) {
    && (forall k :: 0 <= k < |script| ==> NoNewline(script[k]))
    && (forall k :: 0 <= k < |script| - 1 && CmdOf(script[k] + "\n") == Quit ==> script[k + 1] == "")
  }

  predicate Stops(script: seq<string>) {
    script == [] || script[0] == ""
  }

  /** The lines a script makes the client ask: up to the first empty line. */
  function Queries(script: seq<string>): seq<string> {
    if Stops(script) then [] else [script[0] + "\n"] + Queries(script[1..])
  }

  /** Every line up to the first empty one is asked, with a newline. */
  lemma {:induction false} QueryOfLine(script: seq<string>, k: int)
    requires 0 <= k < |script| && forall j :: 0 <= j <= k ==> script[j] != ""
    ensures k < |Queries(script)| && Queries(script)[k] == script[k] + ['\n']
    ensures |Queries(script)| == k + 1 <==> k + 1 == |script| || script[k + 1] == ""
  {
    if k > 0 {
      QueryOfLine(script[1..], k - 1);
    } else if |script| > 1 && script[1] != "" {
      assert Queries(script[1..]) != [];
    }
  }

  function Cmds(d: seq<Exchange>): (cs: seq<Cmd>)
    ensures |cs| == |d|
  {
    seq(|d|, k requires 0 <= k < |d| => CmdOf(d[k].query))
  }

  ghost predicate IsQuery(q: string) {
    IsLine(q) && |q| >= 2
  }

  /** The reply read is the reply the protocol prescribes for this query at this point. */
  ghost predicate GoodExchange(cfg: Messages, before: Login, x: Exchange)
    requires Complete(cfg)
  {
    && IsQuery(x.query) && Fits(before, CmdOf(x.query), x.effect)
    && x.reply == Reply(cfg, before, CmdOf(x.query), x.effect)
  }

  ghost predicate GoodDialogue(cfg: Messages, d: seq<Exchange>)
    requires Complete(cfg)
  {
    forall k :: 0 <= k < |d| ==> GoodExchange(cfg, LoginRun(cfg, Cmds(d[..k])), d[k])
  }

  /** The login state when the current query arrives. */
  ghost function Before(cfg: Messages, s: Session): Login
    requires Complete(cfg)
  {
    LoginRun(cfg, Cmds(s.dialogue))
  }

  ghost predicate Greeting(cfg: Messages, s: Session)
    requires Complete(cfg)
  {
    && s.client.AwaitHello? && NoNewline(s.client.got)
    && s.toServer == "" && s.dialogue == [] && s.login == NOBODY
    && ((s.server.Sending? && s.server.after == ThenReceive && s.server.rest != "") || s.server == Receiving(""))
    && s.client.got + s.toClient + Unsent(s.server) == Hello(cfg)
  }

  function Unsent(pc: ServerPc): string {
    if pc.Sending? then pc.rest else ""
  }

  function Unasked(pc: ClientPc): string {
    if pc.Asking? || pc.Leaving? then pc.rest else ""
  }

  ghost predicate AtPrompt(cfg: Messages, s: Session)
    requires Complete(cfg)
  {
    && s.client.Idle? && s.toServer == "" && s.toClient == ""
    && s.login == Before(cfg, s)
    && (s.server == Receiving("") || (s.server == Closed && Stops(s.script)))
  }

  /** A query is being handled: nothing after a QUIT but leaving. */
  ghost predicate HasQuery(s: Session) {
    IsQuery(s.query) && (CmdOf(s.query) == Quit ==> Stops(s.script))
  }

  ghost predicate Querying(cfg: Messages, s: Session)
    requires Complete(cfg)
  {
    && HasQuery(s) && s.toClient == "" && s.seen == [] && s.said == [] && s.effect == NoEffect
    && s.login == Before(cfg, s)
    && ((s.client.Asking? && s.client.rest != "") || s.client == AwaitReply(""))
    && s.server.Receiving? && NoNewline(s.server.got)
    && s.server.got + s.toServer + Unasked(s.client) == s.query
  }

  ghost predicate Deciding(cfg: Messages, s: Session)
    requires Complete(cfg)
  {
    && HasQuery(s) && s.toClient == "" && s.toServer == "" && s.seen == [] && s.said == [] && s.effect == NoEffect
    && s.login == Before(cfg, s) && s.client == AwaitReply("")
    && s.server == Acting(CmdOf(s.query))
  }

  /** What the server has decided to say so far, by where it is. */
  ghost predicate SaidSoFar(cfg: Messages, s: Session)
    requires Complete(cfg)
  {
    var c, before := CmdOf(s.query), Before(cfg, s);
    var begin := Format("150", Message(cfg, ListBegin));
    match s.server
    case AtSize => c == List && before.logged && s.login == before && s.said == [begin] && s.effect == NoEffect
    case AtList => c == List && before.logged && s.login == before && s.said == [begin] && s.effect == NoEffect
    case Sending(_, ThenSize) => c == List && before.logged && s.login == before && s.said == [begin] && s.effect == NoEffect
    case Sending(_, ThenEnd) =>
      c == List && before.logged && s.login == before
      && s.effect.Listed? && AllLines(s.effect.names) && s.said == [begin] + ListLines(s.effect.names)
    case Sending(_, ThenReceive) => c != Quit && AllSaid(cfg, s)
    case Sending(_, ThenClose) => c == Quit && AllSaid(cfg, s)
    case Receiving(got) => got == "" && c != Quit && AllSaid(cfg, s)
    case Closed => c == Quit && AllSaid(cfg, s)
    case Acting(_) => false
  }

  ghost predicate AllSaid(cfg: Messages, s: Session)
    requires Complete(cfg)
  {
    var c, before := CmdOf(s.query), Before(cfg, s);
    && s.login == LoginAfter(cfg, before, c)
    && Fits(before, c, s.effect) && s.said == Reply(cfg, before, c, s.effect)
  }

  /** What the client has read so far belongs to a reply that is not complete. */
  ghost predicate ReadSoFar(s: Session) {
    || (s.client.AwaitReply? && s.seen == [])
    || (s.client.AwaitList? && s.seen != [] && Code(s.seen[0]) == "150"
        && forall k :: 1 <= k < |s.seen| ==> Code(s.seen[k]) != "226")
  }

  ghost predicate Replying(cfg: Messages, s: Session)
    requires Complete(cfg)
  {
    && HasQuery(s) && s.toServer == ""
    && ReadSoFar(s) && AllLines(s.seen) && NoNewline(s.client.got)
    && SaidSoFar(cfg, s) && AllLines(s.said)
    && (s.server.Sending? ==> s.server.rest != "")
    && Concat(s.seen) + s.client.got + s.toClient + Unsent(s.server) == Concat(s.said)
  }

  ghost predicate Departing(s: Session) {
    && (s.client.Leaving? || s.client.Left?) && s.toClient == ""
    && (s.client.Leaving? ==> s.client.rest != "")
    && (s.server.Closed? || (s.server == Receiving("") && s.toServer + Unasked(s.client) == "\n"))
  }

  ghost predicate Inv(cfg: Messages, s: Session)
    requires Complete(cfg)
  {
    && GoodScript(s.script) && GoodDialogue(cfg, s.dialogue)
    && (Greeting(cfg, s) || AtPrompt(cfg, s) || Querying(cfg, s) || Deciding(cfg, s) || Replying(cfg, s) || Departing(s))
  }

  /** The events of the queries answered and of the one under way. */
  function EffectEvents(e: Effect): seq<Event> {
    if e == NoEffect then [] else [Took(e)]
  }

  function Answered(d: seq<Exchange>): seq<Event> {
    if d == [] then []
    else Answered(d[..|d| - 1]) + ([Ask(d[|d| - 1].query)] + EffectEvents(d[|d| - 1].effect) + [Told(d[|d| - 1].reply)])
  }

  function Log(s: Session): seq<Event> {
    Answered(s.dialogue)
    + if s.client.Asking? || s.client.AwaitReply? || s.client.AwaitList? then [Ask(s.query)] + EffectEvents(s.effect) else []
  }
}
