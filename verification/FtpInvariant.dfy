/** Every step of a session keeps its invariant, extends its log by the events it causes, and
    moves the directories only as those events say. */
module FtpInvariant {
  import opened Text
  import opened Lines
  import opened FtpDirectories
  import opened FtpCommand
  import opened FtpSession

  ghost predicate GoodDirs(dirs: seq<string>) {
    StrictlySorted(dirs) && AllLines(dirs)
  }

  /** The sequential meaning of an effect on a set of names. */
  ghost predicate Legal(before: set<string>, e: Effect, after: set<string>) {
    match e
    case NoEffect => after == before
    case Added(n) => n !in before && after == before + {n}
    case AlreadyThere(n) => n in before && after == before
    case Removed(n) => n in before && after == before - {n}
    case NotThere(n) => n !in before && after == before
    case Listed(names) => after == before && StrictlySorted(names) && Names(names) == before
  }

  /** What a step may do besides keeping the invariant. */
  ghost predicate GoodOutcome(cfg: Messages, dirs: seq<string>, s: Session, o: Outcome)
    requires Complete(cfg)
  {
    && Inv(cfg, o.session) && GoodDirs(o.dirs)
    && Log(o.session) == Log(s) + o.events
    && (if |o.events| == 1 && o.events[0].Took? then Legal(Names(dirs), o.events[0].effect, Names(o.dirs)) else o.dirs == dirs)
  }

  lemma ReadLineKeeps(cfg: Messages, dirs: seq<string>, s: Session)
    requires Complete(cfg) && Inv(cfg, s) && GoodDirs(dirs) && Enabled(s, ReadLine)
    ensures GoodOutcome(cfg, dirs, s, Apply(cfg, dirs, s, ReadLine))
  {
    hide GoodDialogue, LoginRun, Reply, Parse, StrictlySorted, IsLine, CmdOf;
    assert AtPrompt(cfg, s);
    var t := ReadLineStep(s).0;
    if Stops(s.script) {
      assert Departing(t) by {
        assert "" + "\n" == "\n";
      }
      assert Log(s) + [] == Log(s);
    } else {
      FindNothing(s.script[0], '\n');
      EndLine(s.script[0]);
      assert s.script[0] + "\n" == s.script[0] + ['\n'];
      assert "" + "" + t.query == t.query;
      assert Querying(cfg, t);
    }
    ScriptTail(s.script);
  }

  lemma ScriptTail(script: seq<string>)
    requires GoodScript(script)
    ensures script != [] ==> GoodScript(script[1..])
  {
    hide NoNewline, CmdOf;
    if script != [] {
      var tail := script[1..];
      forall k | 0 <= k < |tail| - 1 && CmdOf(tail[k] + "\n") == Quit ensures tail[k + 1] == "" {
        assert script[k + 1] == tail[k];
      }
    }
  }

  lemma ClientSendKeeps(cfg: Messages, dirs: seq<string>, s: Session, n: nat)
    requires Complete(cfg) && Inv(cfg, s) && GoodDirs(dirs) && Enabled(s, ClientSend(n))
    ensures GoodOutcome(cfg, dirs, s, Apply(cfg, dirs, s, ClientSend(n)))
  {
    hide GoodDialogue, GoodScript, LoginRun, Reply, Parse, StrictlySorted, IsLine, NoNewline, CmdOf, SaidSoFar;
    var t := Apply(cfg, dirs, s, ClientSend(n)).session;
    var rest := s.client.rest;
    assert rest == rest[..n] + rest[n..];
    assert Log(s) + [] == Log(s);
    if s.client.Asking? {
      assert Querying(cfg, s);
      assert s.server.got + s.toServer + rest == s.server.got + (s.toServer + rest[..n]) + rest[n..];
      assert Querying(cfg, t);
    } else {
      assert s.toServer + rest == s.toServer + rest[..n] + rest[n..];
      assert Departing(t);
    }
  }

  lemma ServerRecvKeeps(cfg: Messages, dirs: seq<string>, s: Session)
    requires Complete(cfg) && Inv(cfg, s) && GoodDirs(dirs) && Enabled(s, ServerRecv)
    ensures GoodOutcome(cfg, dirs, s, Apply(cfg, dirs, s, ServerRecv))
  {
    hide GoodDialogue, GoodScript, LoginRun, Reply, Parse, StrictlySorted, Find, ServerRecvStep, SaidSoFar, IsQuery,
      CmdOf;
    assert Log(s) + [] == Log(s);
    if s.client.Leaving? || s.client.Left? {
      FarewellByte(cfg, s);
    } else {
      assert Querying(cfg, s);
      QueryByteReceived(cfg, s);
    }
  }

  lemma FarewellByte(cfg: Messages, s: Session)
    requires Departing(s) && s.server.Receiving? && s.toServer != ""
    ensures Departing(ServerRecvStep(s)) && ServerRecvStep(s) == s.(server := Closed, toServer := s.toServer[1..])
  {
    var c, left, tail := s.toServer[0], s.toServer[1..], Unasked(s.client);
    assert s.toServer + tail == [c] + (left + tail);
    assert c == (s.toServer + tail)[0] == '\n' && |left + tail| == 0;
    assert s.server.got + [c] == [c];
  }

  lemma QueryByteReceived(cfg: Messages, s: Session)
    requires Complete(cfg) && Querying(cfg, s) && s.toServer != ""
    ensures var t := ServerRecvStep(s);
      (Deciding(cfg, t) || Querying(cfg, t)) && t == s.(server := t.server, toServer := t.toServer)
  {
    hide LoginRun, Parse, Find;
    var c, left := s.toServer[0], s.toServer[1..];
    var got, tail := s.server.got, Unasked(s.client);
    assert s.toServer == [c] + left;
    assert got + s.toServer + tail == got + [c] + (left + tail) == got + [c] + left + tail;
    QueryByte(got, c, left + tail, s.query);
    var t := ServerRecvStep(s);
    if c == '\n' {
      assert |left| + |tail| == 0;
      assert Deciding(cfg, t);
    } else {
      assert Querying(cfg, t);
    }
  }

  /** The byte that ends the query is its last one. */
  lemma QueryByte(got: string, c: char, rest: string, query: string)
    requires NoNewline(got) && IsLine(query) && got + [c] + rest == query
    ensures c == '\n' ==> got + [c] == query && rest == ""
    ensures c != '\n' ==> NoNewline(got + [c])
  {
    FindNothing([c], '\n');
    JoinNoNewline(got, [c]);
    if c == '\n' {
      EndLine(got);
      assert query + "" == query;
      FirstLine(got + [c], rest, query, "");
    }
  }

  lemma ServerSendKeeps(cfg: Messages, dirs: seq<string>, s: Session, n: nat)
    requires Complete(cfg) && Inv(cfg, s) && GoodDirs(dirs) && Enabled(s, ServerSend(n))
    ensures GoodOutcome(cfg, dirs, s, Apply(cfg, dirs, s, ServerSend(n)))
  {
    hide GoodDialogue, GoodScript, GoodDirs, Greeting, AtPrompt, Querying, Deciding, Replying, Departing,
      ServerSendStep, Log;
    SendingPhase(cfg, s);
    assert Log(s) + [] == Log(s);
    if Greeting(cfg, s) {
      GreetingSent(cfg, s, n);
    } else {
      SentPart(cfg, s, n);
    }
  }

  lemma SendingPhase(cfg: Messages, s: Session)
    requires Complete(cfg) && Inv(cfg, s) && s.server.Sending?
    ensures Greeting(cfg, s) || Replying(cfg, s)
  {
    hide GoodDialogue, GoodScript, SaidSoFar, HasQuery, ReadSoFar, Before, Hello, Concat;
  }

  lemma GreetingSent(cfg: Messages, s: Session, n: nat)
    requires Complete(cfg) && Greeting(cfg, s) && s.server.Sending? && 1 <= n <= |s.server.rest|
    ensures var t := ServerSendStep(cfg, s, n);
      Greeting(cfg, t) && Log(t) == Log(s) && t.script == s.script && t.dialogue == s.dialogue
  {
    hide Hello, NoNewline;
    var rest := s.server.rest;
    assert rest == rest[..n] + rest[n..];
    assert s.client.got + s.toClient + rest == s.client.got + (s.toClient + rest[..n]) + rest[n..];
  }

  lemma SentPart(cfg: Messages, s: Session, n: nat)
    requires Complete(cfg) && Replying(cfg, s) && s.server.Sending? && 1 <= n <= |s.server.rest|
    ensures var t := ServerSendStep(cfg, s, n);
      Replying(cfg, t) && Log(t) == Log(s) && t.script == s.script && t.dialogue == s.dialogue
  {
    hide LoginRun, Reply, Parse, IsLine, NoNewline, CmdOf, Concat, Code, IsQuery, Format, Message, ListLines;
    var t := ServerSendStep(cfg, s, n);
    var rest, read := s.server.rest, Concat(s.seen) + s.client.got;
    assert rest == rest[..n] + rest[n..];
    assert read + s.toClient + rest == read + (s.toClient + rest[..n]) + rest[n..];
    if n == |rest| && s.server.after == ThenEnd {
      var last := Format("226", Message(cfg, ListEnd));
      FormattedMessage(cfg, "226", ListEnd);
      ConcatSnoc(s.said, last);
      assert Concat([last]) == last by { ConcatOne(last); }
      assert t.said == Reply(cfg, Before(cfg, s), CmdOf(s.query), s.effect) by {
        ListReplyOf(cfg, Before(cfg, s), CmdOf(s.query), s.effect);
      }
      assert LoginAfter(cfg, s.login, List) == s.login;
      LineNotEmpty(last);
    }
    assert SaidSoFar(cfg, t);
  }

  lemma LineNotEmpty(line: string)
    requires IsLine(line)
    ensures line != ""
  {
  }

  lemma ConcatOne(x: string)
    ensures Concat([x]) == x
  {
  }

  lemma ListReplyOf(cfg: Messages, l: Login, c: Cmd, e: Effect)
    requires Complete(cfg) && c == List && l.logged && e.Listed? && AllLines(e.names)
    ensures Fits(l, c, e) && Reply(cfg, l, c, e)
      == [Format("150", Message(cfg, ListBegin))] + ListLines(e.names) + [Format("226", Message(cfg, ListEnd))]
  {
  }

  lemma ServerActKeeps(cfg: Messages, dirs: seq<string>, s: Session)
    requires Complete(cfg) && Inv(cfg, s) && GoodDirs(dirs) && Enabled(s, ServerAct)
    ensures GoodOutcome(cfg, dirs, s, Apply(cfg, dirs, s, ServerAct))
  {
    hide GoodDialogue, GoodScript, LoginRun, Reply, Parse, IsLine, NoNewline, Concat, StrictlySorted, Act, Log, Legal;
    if s.server.Acting? {
      assert Deciding(cfg, s);
      ActKeeps(cfg, dirs, s);
    } else {
      assert Replying(cfg, s);
      ListStepKeeps(cfg, dirs, s);
    }
  }

  /** The two lock sections of LIST. */
  lemma ListStepKeeps(cfg: Messages, dirs: seq<string>, s: Session)
    requires Complete(cfg) && Inv(cfg, s) && Replying(cfg, s) && GoodDirs(dirs) && (s.server.AtSize? || s.server.AtList?)
    ensures GoodOutcome(cfg, dirs, s, ServerActStep(cfg, dirs, s))
  {
    hide GoodDialogue, GoodScript, LoginRun, Parse, IsLine, NoNewline, CmdOf, Code, IsQuery, Format, Message, Reply,
      ListLines, Concat,
      Greeting, AtPrompt, Querying, Deciding, Departing, AllSaid, Answered, StrictlySorted;
    var o := ServerActStep(cfg, dirs, s);
    var names := if s.server.AtSize? then [] else dirs;
    assert Concat(s.seen) + s.client.got + s.toClient + "" == Concat(s.said);
    if s.server.AtSize? && |dirs| > 0 {
      assert Replying(cfg, o.session);
      assert Log(s) + [] == Log(s);
    } else {
      assert o.session.effect == Listed(names) && names == dirs;
      TookLog(s, o.session, Listed(names));
      if s.server.AtList? && Listing(dirs) != "" {
        ListLinesAreLines(dirs);
        ConcatAppend(s.said, ListLines(dirs));
        assert Replying(cfg, o.session);
      } else {
        EmptyListing(dirs);
        EmptyListLines();
        ListEnds(cfg, s, o.session);
      }
    }
  }

  lemma EmptyListLines()
    ensures ListLines([]) == []
  {
  }

  lemma EmptyListing(dirs: seq<string>)
    ensures Listing(dirs) == "" ==> dirs == []
  {
    if dirs != [] {
      assert ListLines(dirs)[0] == DIR_FORMAT + dirs[0];
    }
  }

  /** An empty listing goes straight to the closing line. */
  lemma ListEnds(cfg: Messages, s: Session, t: Session)
    requires Complete(cfg) && Replying(cfg, s) && (s.server.AtSize? || s.server.AtList?) && ListLines([]) == []
    requires t == SayEnd(cfg, s.(effect := Listed([])))
    ensures Replying(cfg, t)
  {
    hide LoginRun, Parse, IsLine, NoNewline, CmdOf, Code, IsQuery, Format, Message, Reply, ListLines, Concat;
    var begin, last := Format("150", Message(cfg, ListBegin)), Format("226", Message(cfg, ListEnd));
    FormattedMessage(cfg, "226", ListEnd);
    ConcatSnoc(s.said, last);
    ConcatOne(last);
    LineNotEmpty(last);
    ListReplyOf(cfg, Before(cfg, s), CmdOf(s.query), Listed([]));
    assert [begin] + [] + [last] == [begin] + [last];
    assert LoginAfter(cfg, s.login, List) == s.login;
    assert SaidSoFar(cfg, t);
  }

  lemma ActKeeps(cfg: Messages, dirs: seq<string>, s: Session)
    requires Complete(cfg) && Inv(cfg, s) && Deciding(cfg, s) && GoodDirs(dirs) && !Undefined(s)
    ensures GoodOutcome(cfg, dirs, s, Act(cfg, dirs, s))
  {
    hide GoodDialogue, GoodScript, LoginRun, Parse, IsLine, Message, Reply, ListLines, Concat, WellShaped, Insert,
      Erase, CmdOf, Say, Argument, Legal, StrictlySorted;
    var c := CmdOf(s.query);
    QueryIsLine(s.query);
    ArgumentIsLine(s.query);
    if !Touches(s.login, c) {
      PlainAct(cfg, dirs, s);
    } else if c.List? {
      ListAct(cfg, dirs, s);
    } else {
      DirectoryAct(cfg, dirs, s);
    }
  }

  lemma PlainAct(cfg: Messages, dirs: seq<string>, s: Session)
    requires Complete(cfg) && Inv(cfg, s) && Deciding(cfg, s) && GoodDirs(dirs) && !Touches(s.login, CmdOf(s.query))
    requires Argument(CmdOf(s.query)) == "" || IsLine(Argument(CmdOf(s.query)))
    ensures GoodOutcome(cfg, dirs, s, Act(cfg, dirs, s))
  {
    hide GoodDialogue, GoodScript, LoginRun, Parse, IsLine, Message, Reply, ListLines, Concat, WellShaped, CmdOf,
      Argument, Legal, StrictlySorted, LoginAfter, Code;
    ReplyShape(cfg, s.login, CmdOf(s.query), NoEffect);
    SaysReply(cfg, s, Act(cfg, dirs, s).session);
    assert Log(s) + [] == Log(s);
  }

  lemma ListAct(cfg: Messages, dirs: seq<string>, s: Session)
    requires Complete(cfg) && Inv(cfg, s) && Deciding(cfg, s) && GoodDirs(dirs)
    requires Touches(s.login, CmdOf(s.query)) && CmdOf(s.query).List?
    ensures GoodOutcome(cfg, dirs, s, Act(cfg, dirs, s))
  {
    hide GoodDialogue, GoodScript, LoginRun, Parse, IsLine, Message, Reply, ListLines, Concat, WellShaped, CmdOf,
      Legal, StrictlySorted, Format, Code, IsQuery;
    var begin := Format("150", Message(cfg, ListBegin));
    var t := Act(cfg, dirs, s).session;
    FormattedMessage(cfg, "150", ListBegin);
    ConcatOne(begin);
    LineNotEmpty(begin);
    assert [] + [begin] == [begin];
    NothingRead(t);
    assert Replying(cfg, t);
    assert Log(s) + [] == Log(s);
  }

  lemma DirectoryAct(cfg: Messages, dirs: seq<string>, s: Session)
    requires Complete(cfg) && Inv(cfg, s) && Deciding(cfg, s) && GoodDirs(dirs) && !Undefined(s)
    requires Touches(s.login, CmdOf(s.query)) && !CmdOf(s.query).List?
    requires Argument(CmdOf(s.query)) == "" || IsLine(Argument(CmdOf(s.query)))
    ensures GoodOutcome(cfg, dirs, s, Act(cfg, dirs, s))
  {
    hide GoodDialogue, GoodScript, LoginRun, Parse, IsLine, Message, Reply, ListLines, Concat, WellShaped, Insert,
      Erase, CmdOf, Legal, StrictlySorted, LoginAfter, Code, IsQuery,
      Greeting, AtPrompt, Querying, Replying, Departing, Log, GoodDirs;
    var c := CmdOf(s.query);
    var effect := DirectoryStep(dirs, c).1;
    DirectoryStepLegal(dirs, c);
    ReplyShape(cfg, s.login, c, effect);
    var t := Act(cfg, dirs, s).session;
    assert LoginAfter(cfg, s.login, c) == s.login by { SameLogin(cfg, s.login, c); }
    SaysReply(cfg, s.(effect := effect), t);
    TookLog(s, t, effect);
  }

  lemma SameLogin(cfg: Messages, l: Login, c: Cmd)
    requires Complete(cfg) && (c.Mkd? || c.Rmd? || c.List?)
    ensures LoginAfter(cfg, l, c) == l
  {
  }

  /** The log grows by the effect of the query under way. */
  lemma TookLog(s: Session, t: Session, effect: Effect)
    requires s.client.AwaitReply? || s.client.AwaitList?
    requires t.client == s.client && t.dialogue == s.dialogue && t.query == s.query
    requires s.effect == NoEffect && t.effect == effect != NoEffect
    ensures Log(t) == Log(s) + [Took(effect)]
  {
    hide Answered;
    assert Answered(s.dialogue) + ([Ask(s.query)] + []) + [Took(effect)] == Answered(s.dialogue) + ([Ask(s.query)] + [Took(effect)]);
  }

  lemma NothingRead(s: Session)
    requires s.seen == [] && s.client == AwaitReply("") && s.toClient == ""
    ensures Concat(s.seen) + s.client.got + s.toClient + Unsent(s.server) == Unsent(s.server)
  {
    assert "" + "" + "" + Unsent(s.server) == Unsent(s.server);
  }

  /** The whole reply is composed at once. */
  lemma SaysReply(cfg: Messages, s: Session, t: Session)
    requires Complete(cfg) && HasQuery(s) && s.toServer == "" && s.toClient == "" && s.seen == [] && s.said == []
    requires s.client == AwaitReply("") && s.login == Before(cfg, s)
    requires Fits(s.login, CmdOf(s.query), s.effect) && WellShaped(Reply(cfg, s.login, CmdOf(s.query), s.effect))
    requires t == Say(s, Reply(cfg, s.login, CmdOf(s.query), s.effect), if CmdOf(s.query).Quit? then ThenClose else ThenReceive)
      .(login := LoginAfter(cfg, s.login, CmdOf(s.query)))
    ensures Replying(cfg, t)
  {
    hide LoginRun, Parse, Format, Message, Reply, ListLines, CmdOf;
    var reply := Reply(cfg, s.login, CmdOf(s.query), s.effect);
    assert [] + reply == reply;
    assert Concat(reply) == reply[0] + Concat(reply[1..]);
    NothingRead(t);
    assert Before(cfg, t) == Before(cfg, s);
    assert SaidSoFar(cfg, t);
  }

  lemma DirectoryStepLegal(dirs: seq<string>, c: Cmd)
    requires GoodDirs(dirs) && (c.Mkd? || c.Rmd?)
    requires c.arg == "" || IsLine(c.arg)
    requires c != Mkd("")
    ensures var (next, e) := DirectoryStep(dirs, c);
      GoodDirs(next) && Legal(Names(dirs), e, Names(next)) && e != NoEffect
      && (c.Mkd? ==> e == Added(c.arg) || e == AlreadyThere(c.arg)) && (c.Rmd? ==> e == Removed(c.arg) || e == NotThere(c.arg))
  {
    hide IsLine, StrictlySorted;
    var a := c.arg;
    if c.Mkd? && a !in dirs {
      InsertSorted(dirs, a);
      forall n | n in Insert(dirs, a) ensures IsLine(n) {
        assert n in Names(Insert(dirs, a));
      }
    } else if c.Rmd? && a in dirs {
      EraseSorted(dirs, a);
      forall n | n in Erase(dirs, a) ensures IsLine(n) {
        assert n in Names(Erase(dirs, a));
      }
    }
  }

  lemma ClientRecvKeeps(cfg: Messages, dirs: seq<string>, s: Session)
    requires Complete(cfg) && Inv(cfg, s) && GoodDirs(dirs) && Enabled(s, ClientRecv)
    ensures GoodOutcome(cfg, dirs, s, Apply(cfg, dirs, s, ClientRecv))
  {
    hide GoodDirs, Greeting, AtPrompt, Querying, Deciding, Replying, Departing, ClientRecvStep, Log, GoodScript,
      GoodDialogue;
    ReadingPhase(cfg, s);
    if Greeting(cfg, s) {
      GreetingByte(cfg, s);
      assert Log(s) + [] == Log(s);
    } else {
      ReplyByte(cfg, s);
    }
  }

  lemma ReadingPhase(cfg: Messages, s: Session)
    requires Complete(cfg) && Inv(cfg, s) && Enabled(s, ClientRecv)
    ensures Greeting(cfg, s) || Replying(cfg, s)
  {
    hide GoodDialogue, GoodScript, SaidSoFar, HasQuery, ReadSoFar, Before, Hello, Concat, NoNewline;
  }

  lemma GreetingByte(cfg: Messages, s: Session)
    requires Complete(cfg) && Greeting(cfg, s) && s.toClient != ""
    ensures var (t, es) := ClientRecvStep(s);
      && (Greeting(cfg, t) || AtPrompt(cfg, t)) && es == []
      && t.script == s.script && t.dialogue == s.dialogue && Log(t) == Log(s)
  {
    hide LoginRun, Hello, Find, Code;
    var t := ClientRecvStep(s).0;
    var c, left, got := s.toClient[0], s.toClient[1..], s.client.got;
    var tail := left + Unsent(s.server);
    assert s.toClient == [c] + left;
    assert got + s.toClient + Unsent(s.server) == got + [c] + tail == (got + [c]) + left + Unsent(s.server);
    HelloIsLine(cfg);
    QueryByte(got, c, tail, Hello(cfg));
    if c == '\n' {
      assert |left| + |Unsent(s.server)| == 0;
      EmptyDialogue(cfg, t);
    }
  }

  lemma HelloIsLine(cfg: Messages)
    requires Complete(cfg)
    ensures IsLine(Hello(cfg))
  {
    FormattedMessage(cfg, "220", NewClient);
  }

  lemma EmptyDialogue(cfg: Messages, s: Session)
    requires Complete(cfg) && s.dialogue == []
    ensures Before(cfg, s) == NOBODY
  {
  }

  /** What the server said does not depend on what the client does. */
  lemma SaidUnchanged(cfg: Messages, s: Session, t: Session)
    requires Complete(cfg) && SaidSoFar(cfg, s)
    requires t == s.(client := t.client, seen := t.seen, toClient := t.toClient)
    ensures SaidSoFar(cfg, t)
  {
    hide LoginRun, Parse, Reply, CmdOf, Format, Message, ListLines, Fits, LoginAfter, IsLine;
  }

  /** One byte of a reply: inside a line, or the end of one. */
  lemma ReplyByte(cfg: Messages, s: Session)
    requires Complete(cfg) && Inv(cfg, s) && Replying(cfg, s) && Enabled(s, ClientRecv)
    ensures var (t, es) := ClientRecvStep(s); Inv(cfg, t) && Log(t) == Log(s) + es && (es == [] || (|es| == 1 && es[0].Told?))
  {
    hide GoodDialogue, GoodScript, Greeting, AtPrompt, Querying, Deciding, Departing, HasQuery, ReadSoFar, SaidSoFar, Log,
      Concat, NoNewline, IsLine, Code, ClientRecvStep;
    var c, left := s.toClient[0], s.toClient[1..];
    var got, read := s.client.got, Concat(s.seen);
    assert s.toClient == [c] + left;
    ReplySplit(read, got, c, left, Unsent(s.server));
    if c != '\n' {
      ByteInside(cfg, s);
      assert Log(s) + [] == Log(s);
    } else {
      EndLine(got);
      LineRead(cfg, s, got + [c], left);
    }
  }

  lemma ReplySplit(read: string, got: string, c: char, left: string, unsent: string)
    ensures read + got + ([c] + left) + unsent == read + (got + [c]) + left + unsent
    ensures read + got + ([c] + left) + unsent == read + (got + [c]) + (left + unsent)
  {
  }

  lemma ByteInside(cfg: Messages, s: Session)
    requires Complete(cfg) && Replying(cfg, s) && Enabled(s, ClientRecv) && s.toClient[0] != '\n'
    ensures var (t, es) := ClientRecvStep(s);
      Replying(cfg, t) && Log(t) == Log(s) && es == [] && t.script == s.script && t.dialogue == s.dialogue
  {
    hide SaidSoFar, IsQuery, CmdOf, Concat, Find, Answered, Code;
    var (t, es) := ClientRecvStep(s);
    var c, left := s.toClient[0], s.toClient[1..];
    assert s.toClient == [c] + left;
    ReplySplit(Concat(s.seen), s.client.got, c, left, Unsent(s.server));
    FindNothing([c], '\n');
    JoinNoNewline(s.client.got, [c]);
    SaidUnchanged(cfg, s, t);
  }

  /** The end of a line: the reply goes on, or it is over exactly here. */
  lemma LineRead(cfg: Messages, s: Session, line: string, left: string)
    requires Complete(cfg) && Inv(cfg, s) && Replying(cfg, s)
    requires s.toClient == ['\n'] + left && line == s.client.got + ['\n'] && IsLine(line)
    requires Concat(s.seen) + line + left + Unsent(s.server) == Concat(s.said)
    requires Concat(s.seen) + line + (left + Unsent(s.server)) == Concat(s.said)
    ensures var (t, es) := ClientRecvStep(s); Inv(cfg, t) && Log(t) == Log(s) + es && (es == [] || (|es| == 1 && es[0].Told?))
  {
    hide GoodDialogue, GoodScript, LoginRun, Parse, Reply, CmdOf, SaidSoFar, IsQuery, Concat, IsLine, Find, Code,
      Greeting, AtPrompt, Querying, Deciding, Departing, AllSaid, Answered;
    var t := ClientRecvStep(s).0;
    var seen, tail := s.seen + [line], left + Unsent(s.server);
    assert s.toClient[0] == '\n' && s.toClient[1..] == left;
    ConcatSnoc(s.seen, line);
    LinesReadPrefix(seen, tail, s.said);
    assert seen[|s.seen|] == s.said[|s.seen|];
    var over := Code(line) == (if s.client.AwaitList? then "226" else Code(line)) && (s.client.AwaitReply? ==> Code(line) != "150");
    if over {
      ReplyIsOver(cfg, s, seen, tail);
      QueryAnswered(cfg, s, t, seen);
    } else {
      SaidUnchanged(cfg, s, t);
      assert t.client == AwaitList("") && t.seen == seen;
      assert ReadSoFar(t);
      assert Concat(seen) + "" + left + Unsent(s.server) == Concat(s.said);
      assert NoNewline("");
      assert Replying(cfg, t);
      assert Log(s) + [] == Log(s);
    }
  }

  /** The line that makes the client stop reading is the last line of the whole reply. */
  lemma ReplyIsOver(cfg: Messages, s: Session, seen: seq<string>, tail: string)
    requires Complete(cfg) && HasQuery(s) && SaidSoFar(cfg, s) && AllLines(s.said) && ReadSoFar(s)
    requires seen != [] && |seen| == |s.seen| + 1 && |seen| <= |s.said| && seen == s.said[..|seen|]
    requires s.seen == seen[..|seen| - 1] && tail == Concat(s.said[|seen|..])
    requires if s.client.AwaitList? then Code(seen[|seen| - 1]) == "226" else Code(seen[0]) != "150"
    ensures AllSaid(cfg, s) && seen == s.said && tail == ""
  {
    hide LoginRun, Parse, Reply, CmdOf, IsLine, Format, Message, Code;
    FormattedMessage(cfg, "150", ListBegin);
    var k := |seen| - 1;
    assert seen[k] == s.said[k] && seen[0] == s.said[0];
    if !AllSaid(cfg, s) {
      assert s.said[0] == Format("150", Message(cfg, ListBegin));
      if k > 0 {
        ListLineCode(s.effect.names, k - 1);
      }
      assert false;
    }
    QueryIsLine(s.query);
    ArgumentIsLine(s.query);
    ReplyShape(cfg, Before(cfg, s), CmdOf(s.query), s.effect);
    assert s.said[|seen|..] == [];
  }

  lemma QueryIsLine(q: string)
    requires IsQuery(q)
    ensures IsLine(q) && q != "" && CmdOf(q) == Parse(q)
  {
  }

  /** Back at the prompt: the dialogue has one more good exchange and nothing is unread. */
  lemma QueryAnswered(cfg: Messages, s: Session, t: Session, seen: seq<string>)
    requires Complete(cfg) && Inv(cfg, s) && HasQuery(s) && s.toServer == "" && SaidSoFar(cfg, s) && AllSaid(cfg, s)
    requires (s.client.AwaitReply? || s.client.AwaitList?) && (s.server.Sending? ==> s.server.rest != "")
    requires seen == s.said && Unsent(s.server) == "" && t.toClient == ""
    requires t == Finish(s.(toClient := ""), seen).0
    ensures Inv(cfg, t) && Log(t) == Log(s) + [Told(seen)]
  {
    hide GoodScript, LoginRun, Parse, Reply, CmdOf, IsQuery, Format, Message, LoginAfter;
    var x := Exchange(s.query, s.effect, seen);
    assert t.dialogue == s.dialogue + [x];
    DialogueSnoc(cfg, s.dialogue, x);
    assert AtPrompt(cfg, t);
    assert t.dialogue[..|t.dialogue| - 1] == s.dialogue;
    assert Answered(t.dialogue) == Answered(s.dialogue) + ([Ask(s.query)] + EffectEvents(s.effect) + [Told(seen)])
      == Answered(s.dialogue) + ([Ask(s.query)] + EffectEvents(s.effect)) + [Told(seen)];
    assert Log(t) == Answered(t.dialogue) + [];
  }

  lemma DialogueSnoc(cfg: Messages, d: seq<Exchange>, x: Exchange)
    requires Complete(cfg) && GoodDialogue(cfg, d) && GoodExchange(cfg, LoginRun(cfg, Cmds(d)), x)
    ensures GoodDialogue(cfg, d + [x])
    ensures LoginRun(cfg, Cmds(d + [x])) == LoginAfter(cfg, LoginRun(cfg, Cmds(d)), CmdOf(x.query))
  {
    hide GoodExchange, CmdOf, LoginAfter;
    var all := d + [x];
    assert Cmds(all)[..|d|] == Cmds(d);
    assert all[..|d|] == d;
    forall k | 0 <= k < |all| ensures GoodExchange(cfg, LoginRun(cfg, Cmds(all[..k])), all[k]) {
      if k < |d| {
        assert all[..k] == d[..k] && all[k] == d[k];
      }
    }
  }

  /** The main step lemma. */
  lemma StepKeeps(cfg: Messages, dirs: seq<string>, s: Session, a: Action)
    requires Complete(cfg) && Inv(cfg, s) && GoodDirs(dirs) && Enabled(s, a)
    ensures GoodOutcome(cfg, dirs, s, Apply(cfg, dirs, s, a))
  {
    hide *;
    match a
    case ReadLine => ReadLineKeeps(cfg, dirs, s);
    case ClientSend(n) => ClientSendKeeps(cfg, dirs, s, n);
    case ClientRecv => ClientRecvKeeps(cfg, dirs, s);
    case ServerSend(n) => ServerSendKeeps(cfg, dirs, s, n);
    case ServerRecv => ServerRecvKeeps(cfg, dirs, s);
    case ServerAct => ServerActKeeps(cfg, dirs, s);
  }
}
