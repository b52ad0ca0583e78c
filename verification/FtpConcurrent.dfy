/** Any number of sessions share the directories. Steps of different sessions interleave
    freely; each lock section is one step. */
module FtpConcurrent {
  import opened Text
  import opened Lines
  import opened FtpDirectories
  import opened FtpCommand
  import opened FtpSession
  import opened FtpInvariant

  datatype Stamped = Stamped(sid: int, event: Event)

  datatype System = System(dirs: seq<string>, sessions: seq<Session>, history: seq<Stamped>)

  datatype Step = Step(sid: int, action: Action)

  ghost function Init(cfg: Messages, scripts: seq<seq<string>>): System
    requires Complete(cfg)
  {
    System([], seq(|scripts|, i requires 0 <= i < |scripts| => Start(cfg, scripts[i])), [])
  }

  ghost predicate CanStep(sys: System, st: Step) {
    0 <= st.sid < |sys.sessions| && Enabled(sys.sessions[st.sid], st.action)
  }

  function Stamp(sid: int, es: seq<Event>): seq<Stamped> {
    seq(|es|, k requires 0 <= k < |es| => Stamped(sid, es[k]))
  }

  ghost function Next(cfg: Messages, sys: System, st: Step): System
    requires Complete(cfg) && CanStep(sys, st)
  {
    var o := Apply(cfg, sys.dirs, sys.sessions[st.sid], st.action);
    System(o.dirs, sys.sessions[st.sid := o.session], sys.history + Stamp(st.sid, o.events))
  }

  ghost predicate CanRun(cfg: Messages, sys: System, steps: seq<Step>)
    requires Complete(cfg)
    decreases |steps|
  {
    steps != [] ==> CanStep(sys, steps[0]) && CanRun(cfg, Next(cfg, sys, steps[0]), steps[1..])
  }

  ghost function Run(cfg: Messages, sys: System, steps: seq<Step>): System
    requires Complete(cfg) && CanRun(cfg, sys, steps)
    decreases |steps|
  {
    if steps == [] then sys else Run(cfg, Next(cfg, sys, steps[0]), steps[1..])
  }

  /** The events of one session, in order. */
  function Project(h: seq<Stamped>, sid: int): seq<Event> {
    if h == [] then []
    else Project(h[..|h| - 1], sid) + (if h[|h| - 1].sid == sid then [h[|h| - 1].event] else [])
  }

  /** The effects on the directories, in the order of the lock sections. */
  function Effects(h: seq<Stamped>): seq<Effect> {
    if h == [] then []
    else Effects(h[..|h| - 1]) + (if h[|h| - 1].event.Took? then [h[|h| - 1].event.effect] else [])
  }

  // ---- The sequential directory ----

  function ApplyEffect(names: set<string>, e: Effect): set<string> {
    match e
    case Added(n) => names + {n}
    case Removed(n) => names - {n}
    case _ => names
  }

  function SetAfter(es: seq<Effect>): set<string> {
    if es == [] then {} else ApplyEffect(SetAfter(es[..|es| - 1]), es[|es| - 1])
  }

  /** Run one after the other from the empty set, every effect is what it says it was. */
  ghost predicate SequentiallyLegal(es: seq<Effect>) {
    forall k :: 0 <= k < |es| ==> Legal(SetAfter(es[..k]), es[k], ApplyEffect(SetAfter(es[..k]), es[k]))
  }

  ghost predicate SystemInv(cfg: Messages, sys: System)
    requires Complete(cfg)
  {
    && GoodDirs(sys.dirs)
    && SequentiallyLegal(Effects(sys.history)) && SetAfter(Effects(sys.history)) == Names(sys.dirs)
    && (forall i :: 0 <= i < |sys.sessions| ==> Inv(cfg, sys.sessions[i]))
    && (forall i :: 0 <= i < |sys.sessions| ==> Project(sys.history, i) == Log(sys.sessions[i]))
  }

  lemma LegalIsApplied(before: set<string>, e: Effect, after: set<string>)
    requires Legal(before, e, after)
    ensures after == ApplyEffect(before, e)
  {
  }

  lemma HistorySnoc(h: seq<Stamped>, sid: int, es: seq<Event>, i: int)
    requires |es| <= 1
    ensures Project(h + Stamp(sid, es), i) == Project(h, i) + (if i == sid then es else [])
    ensures Effects(h + Stamp(sid, es)) == Effects(h) + (if |es| == 1 && es[0].Took? then [es[0].effect] else [])
  {
    var all := h + Stamp(sid, es);
    if es == [] {
      assert all == h;
    } else {
      assert all[..|all| - 1] == h;
      assert es == [es[0]];
    }
  }

  lemma LegalSnoc(es: seq<Effect>, e: Effect, after: set<string>)
    requires SequentiallyLegal(es) && Legal(SetAfter(es), e, after)
    ensures SequentiallyLegal(es + [e]) && SetAfter(es + [e]) == after
  {
    hide Legal;
    var all := es + [e];
    assert all[..|es|] == es;
    LegalIsApplied(SetAfter(es), e, after);
    forall k | 0 <= k < |all| ensures Legal(SetAfter(all[..k]), all[k], ApplyEffect(SetAfter(all[..k]), all[k])) {
      if k < |es| {
        assert all[..k] == es[..k];
      }
    }
  }

  lemma StepKeepsSystem(cfg: Messages, sys: System, st: Step)
    requires Complete(cfg) && SystemInv(cfg, sys) && CanStep(sys, st)
    ensures SystemInv(cfg, Next(cfg, sys, st))
  {
    hide Inv, Log, Apply, Enabled, Legal, SequentiallyLegal, SetAfter, Project, Effects, Names, Stamp, GoodDirs;
    var s := sys.sessions[st.sid];
    StepKeeps(cfg, sys.dirs, s, st.action);
    StepEvents(cfg, sys.dirs, s, st.action);
    var o := Apply(cfg, sys.dirs, s, st.action);
    forall i { HistorySnoc(sys.history, st.sid, o.events, i); }
    var next := Next(cfg, sys, st);
    forall i | 0 <= i < |next.sessions| ensures Inv(cfg, next.sessions[i]) && Project(next.history, i) == Log(next.sessions[i]) {
      assert Project(sys.history, i) + [] == Project(sys.history, i);
    }
    if |o.events| == 1 && o.events[0].Took? {
      LegalSnoc(Effects(sys.history), o.events[0].effect, Names(o.dirs));
    } else {
      assert Effects(sys.history) + [] == Effects(sys.history);
    }
  }

  lemma StepEvents(cfg: Messages, dirs: seq<string>, s: Session, a: Action)
    requires Complete(cfg) && Enabled(s, a)
    ensures |Apply(cfg, dirs, s, a).events| <= 1
  {
    hide Reply, LoginAfter, Say, SayEnd, Listing, ListLines, Parse, DirectoryStep;
  }

  lemma InitInv(cfg: Messages, scripts: seq<seq<string>>)
    requires Complete(cfg) && forall i :: 0 <= i < |scripts| ==> GoodScript(scripts[i])
    ensures SystemInv(cfg, Init(cfg, scripts))
  {
    var sys := Init(cfg, scripts);
    forall i | 0 <= i < |sys.sessions| ensures Inv(cfg, sys.sessions[i]) && Project(sys.history, i) == Log(sys.sessions[i]) {
      StartInv(cfg, scripts[i]);
    }
  }

  lemma StartInv(cfg: Messages, script: seq<string>)
    requires Complete(cfg) && GoodScript(script)
    ensures Inv(cfg, Start(cfg, script)) && Log(Start(cfg, script)) == []
  {
    hide GoodScript, Hello;
    var s := Start(cfg, script);
    HelloIsLine(cfg);
    LineNotEmpty(Hello(cfg));
    assert "" + "" + Hello(cfg) == Hello(cfg);
    assert Greeting(cfg, s);
  }

  lemma {:induction false} RunKeeps(cfg: Messages, sys: System, steps: seq<Step>)
    requires Complete(cfg) && SystemInv(cfg, sys) && CanRun(cfg, sys, steps)
    ensures SystemInv(cfg, Run(cfg, sys, steps))
    decreases |steps|
  {
    hide SystemInv, Next, CanStep;
    if steps != [] {
      StepKeepsSystem(cfg, sys, steps[0]);
      RunKeeps(cfg, Next(cfg, sys, steps[0]), steps[1..]);
    }
  }

  // ---- The main results ----

  ghost predicate Reachable(cfg: Messages, scripts: seq<seq<string>>, steps: seq<Step>)
    requires Complete(cfg)
  {
    (forall i :: 0 <= i < |scripts| ==> GoodScript(scripts[i])) && CanRun(cfg, Init(cfg, scripts), steps)
  }

  /** Every interleaving is linearizable. The effects, in the order of the lock sections, are
      those of one directory used by one client at a time; and what each client sees is, for
      every query, the request, then at most one effect of its own, then the reply that
      effect calls for. */
  lemma Linearizable(cfg: Messages, scripts: seq<seq<string>>, steps: seq<Step>)
    requires Complete(cfg) && Reachable(cfg, scripts, steps)
    ensures var sys := Run(cfg, Init(cfg, scripts), steps);
      && SequentiallyLegal(Effects(sys.history)) && SetAfter(Effects(sys.history)) == Names(sys.dirs)
      && StrictlySorted(sys.dirs)
      && (forall i :: 0 <= i < |sys.sessions| ==>
        GoodDialogue(cfg, sys.sessions[i].dialogue) && Project(sys.history, i) == Log(sys.sessions[i]))
  {
    hide GoodDialogue, Log, SequentiallyLegal, GoodScript;
    InitInv(cfg, scripts);
    RunKeeps(cfg, Init(cfg, scripts), steps);
  }

  /** The client never loses step: at its prompt nothing it should have read is left, and
      each query was answered by one line, or by 150, the listed names and 226. */
  lemma Synchronised(cfg: Messages, scripts: seq<seq<string>>, steps: seq<Step>, i: int)
    requires Complete(cfg) && Reachable(cfg, scripts, steps)
    requires 0 <= i < |Run(cfg, Init(cfg, scripts), steps).sessions|
    ensures var s := Run(cfg, Init(cfg, scripts), steps).sessions[i];
      && (s.client.Idle? ==> s.toClient == "" && s.toServer == "")
      && (forall k :: 0 <= k < |s.dialogue| ==>
        var x, before := s.dialogue[k], LoginRun(cfg, Cmds(s.dialogue[..k]));
        && WellShaped(x.reply)
        && (CmdOf(x.query) == List && before.logged ==> x.effect.Listed? && x.reply == ListReply(cfg, x.effect.names))
        && (!(CmdOf(x.query) == List && before.logged) ==> |x.reply| == 1))
  {
    hide GoodScript, LoginRun, WellShaped, CmdOf, ListReply;
    InitInv(cfg, scripts);
    RunKeeps(cfg, Init(cfg, scripts), steps);
    var s := Run(cfg, Init(cfg, scripts), steps).sessions[i];
    IdleIsQuiet(cfg, s);
    forall k | 0 <= k < |s.dialogue| ensures
      var x, before := s.dialogue[k], LoginRun(cfg, Cmds(s.dialogue[..k]));
      && WellShaped(x.reply)
      && (CmdOf(x.query) == List && before.logged ==> x.effect.Listed? && x.reply == ListReply(cfg, x.effect.names))
      && (!(CmdOf(x.query) == List && before.logged) ==> |x.reply| == 1)
    {
      ExchangeShape(cfg, LoginRun(cfg, Cmds(s.dialogue[..k])), s.dialogue[k]);
    }
  }

  lemma IdleIsQuiet(cfg: Messages, s: Session)
    requires Complete(cfg) && Inv(cfg, s)
    ensures s.client.Idle? ==> s.toClient == "" && s.toServer == ""
  {
    hide GoodScript, GoodDialogue, SaidSoFar, IsQuery;
  }

  lemma ExchangeShape(cfg: Messages, before: Login, x: Exchange)
    requires Complete(cfg) && GoodExchange(cfg, before, x)
    ensures WellShaped(x.reply)
    ensures CmdOf(x.query) == List && before.logged ==> x.effect.Listed? && x.reply == ListReply(cfg, x.effect.names)
    ensures !(CmdOf(x.query) == List && before.logged) ==> |x.reply| == 1
  {
    hide IsLine, Parse, Message, Format, FormatName, ListReply;
    QueryIsLine(x.query);
    ArgumentIsLine(x.query);
    ReplyShape(cfg, before, CmdOf(x.query), x.effect);
  }

  /** Successful additions (true) and removals (false) of one name, in order. */
  function Changes(es: seq<Effect>, name: string): seq<bool> {
    if es == [] then []
    else Changes(es[..|es| - 1], name) + ChangeOf(es[|es| - 1], name)
  }

  function ChangeOf(e: Effect, name: string): seq<bool> {
    if e == Added(name) then [true] else if e == Removed(name) then [false] else []
  }

  /** The two kinds of change take turns, an addition first. */
  ghost predicate Alternates(changes: seq<bool>) {
    forall k :: 0 <= k < |changes| ==> (changes[k] <==> k % 2 == 0)
  }

  lemma NothingAlternates()
    ensures Alternates([])
  {
  }

  lemma LegalFront(es: seq<Effect>)
    requires SequentiallyLegal(es) && es != []
    ensures SequentiallyLegal(es[..|es| - 1])
    ensures Legal(SetAfter(es[..|es| - 1]), es[|es| - 1], SetAfter(es))
  {
    hide Legal;
    var front, n := es[..|es| - 1], |es| - 1;
    forall k | 0 <= k < n ensures Legal(SetAfter(front[..k]), front[k], ApplyEffect(SetAfter(front[..k]), front[k])) {
      assert front[..k] == es[..k] && front[k] == es[k];
    }
    assert Legal(SetAfter(es[..n]), es[n], ApplyEffect(SetAfter(es[..n]), es[n]));
  }

  lemma ChangeAlternates(changes: seq<bool>, before: set<string>, e: Effect, after: set<string>, name: string)
    requires Alternates(changes) && Legal(before, e, after) && (name in before <==> |changes| % 2 == 1)
    ensures Alternates(changes + ChangeOf(e, name)) && (name in after <==> |changes + ChangeOf(e, name)| % 2 == 1)
  {
    LegalIsApplied(before, e, after);
  }

  lemma {:induction false} ChangesAlternate(es: seq<Effect>, name: string)
    requires SequentiallyLegal(es)
    ensures Alternates(Changes(es, name))
    ensures name in SetAfter(es) <==> |Changes(es, name)| % 2 == 1
  {
    hide SequentiallyLegal, Legal, Alternates, ChangeOf, ApplyEffect;
    if es == [] {
      NothingAlternates();
    } else {
      var front := es[..|es| - 1];
      LegalFront(es);
      ChangesAlternate(front, name);
      ChangeAlternates(Changes(front, name), SetAfter(front), es[|es| - 1], SetAfter(es), name);
    }
  }

  /** Directories are conserved: for every name successful additions and removals alternate,
      an addition first, and the name is there exactly when there was one more addition. */
  lemma Conservation(cfg: Messages, scripts: seq<seq<string>>, steps: seq<Step>, name: string)
    requires Complete(cfg) && Reachable(cfg, scripts, steps)
    ensures var sys := Run(cfg, Init(cfg, scripts), steps);
      var changes := Changes(Effects(sys.history), name);
      && Alternates(changes)
      && (name in sys.dirs <==> |changes| % 2 == 1)
  {
    var sys := Run(cfg, Init(cfg, scripts), steps);
    Linearizable(cfg, scripts, steps);
    ChangesAlternate(Effects(sys.history), name);
    assert name in sys.dirs <==> name in Names(sys.dirs);
  }

  /** The commands that need a login. */
  predicate NeedsLogin(c: Cmd) {
    c.Syst? || c.List? || c.Help? || c.Pwd? || c.Mkd? || c.Rmd?
  }

  ghost predicate RightPassBefore(cfg: Messages, d: seq<Exchange>, k: int)
    requires Complete(cfg) && 0 <= k <= |d|
  {
    exists j :: 0 <= j < k && RightPass(cfg, Cmds(d[..k]), j)
  }

  /** What a session did to the directories it did after a right PASS of its own; before one
      every command that needs a login was refused, and after one every MKD, RMD and LIST
      took effect. */
  lemma OnlyAfterLogin(cfg: Messages, scripts: seq<seq<string>>, steps: seq<Step>, i: int, k: int)
    requires Complete(cfg) && Reachable(cfg, scripts, steps)
    requires 0 <= i < |Run(cfg, Init(cfg, scripts), steps).sessions|
    requires 0 <= k < |Run(cfg, Init(cfg, scripts), steps).sessions[i].dialogue|
    ensures var d := Run(cfg, Init(cfg, scripts), steps).sessions[i].dialogue;
      var c := CmdOf(d[k].query);
      && (d[k].effect != NoEffect <==> RightPassBefore(cfg, d, k) && (c.Mkd? || c.Rmd? || c.List?))
      && (NeedsLogin(c) && !RightPassBefore(cfg, d, k) ==> d[k].reply == [Format("530", Message(cfg, NotLogged))])
  {
    hide GoodScript, RightPass, LoginRun, CmdOf, GoodExchange, SequentiallyLegal, SetAfter, StrictlySorted, Log,
      NeedsLogin;
    Linearizable(cfg, scripts, steps);
    var d := Run(cfg, Init(cfg, scripts), steps).sessions[i].dialogue;
    LoggedIsHistory(cfg, Cmds(d[..k]));
    ExchangeNeedsLogin(cfg, LoginRun(cfg, Cmds(d[..k])), d[k]);
  }

  lemma ExchangeNeedsLogin(cfg: Messages, before: Login, x: Exchange)
    requires Complete(cfg) && GoodExchange(cfg, before, x)
    ensures var c := CmdOf(x.query);
      && (x.effect != NoEffect <==> before.logged && (c.Mkd? || c.Rmd? || c.List?))
      && (NeedsLogin(c) && !before.logged ==> x.reply == [Format("530", Message(cfg, NotLogged))])
  {
    hide CmdOf, IsQuery, Message, Format, FormatName, ListReply;
  }

  /** Clients can tell what they did: in every run a logged-in MKD is answered by 257 exactly
      when it added its name and by 550 otherwise, and RMD by 250 or 550 likewise. */
  lemma RepliesTell(cfg: Messages, scripts: seq<seq<string>>, steps: seq<Step>, i: int, k: int)
    requires Complete(cfg) && Reachable(cfg, scripts, steps)
    requires 0 <= i < |Run(cfg, Init(cfg, scripts), steps).sessions|
    requires 0 <= k < |Run(cfg, Init(cfg, scripts), steps).sessions[i].dialogue|
    ensures var d := Run(cfg, Init(cfg, scripts), steps).sessions[i].dialogue;
      RightPassBefore(cfg, d, k) ==> TellsEffect(d[k])
  {
    hide GoodScript, RightPass, LoginRun, GoodExchange, SequentiallyLegal, SetAfter, StrictlySorted, Log, TellsEffect;
    Linearizable(cfg, scripts, steps);
    var d := Run(cfg, Init(cfg, scripts), steps).sessions[i].dialogue;
    LoggedIsHistory(cfg, Cmds(d[..k]));
    if RightPassBefore(cfg, d, k) {
      ExchangeTells(cfg, LoginRun(cfg, Cmds(d[..k])), d[k]);
    }
  }

  /** The code of the reply to MKD or RMD says whether it changed the directories. */
  ghost predicate TellsEffect(x: Exchange) {
    var c := CmdOf(x.query);
    && x.reply != []
    && (c.Mkd? && c.arg != "" ==> Code(x.reply[0]) == if x.effect == Added(c.arg) then "257" else "550")
    && (c.Rmd? && c.arg != "" ==> Code(x.reply[0]) == if x.effect == Removed(c.arg) then "250" else "550")
  }

  lemma ExchangeTells(cfg: Messages, before: Login, x: Exchange)
    requires Complete(cfg) && GoodExchange(cfg, before, x) && before.logged
    ensures TellsEffect(x)
  {
    hide IsLine, Parse, Reply, Code, Fits, LoginAfter;
    var c := CmdOf(x.query);
    QueryIsLine(x.query);
    ArgumentIsLine(x.query);
    ReplyTells(cfg, before, c, x.effect);
    ReplyNotEmpty(cfg, before, c, x.effect);
  }

  lemma ReplyNotEmpty(cfg: Messages, l: Login, c: Cmd, e: Effect)
    requires Complete(cfg)
    ensures Reply(cfg, l, c, e) != []
  {
  }

  /** No session is ever stuck: until its client has left, it can take a step, except at the
      bare MKD of a logged-in client, where the program has no defined behaviour. */
  lemma NeverStuck(cfg: Messages, scripts: seq<seq<string>>, steps: seq<Step>, i: int) returns (a: Action)
    requires Complete(cfg) && Reachable(cfg, scripts, steps)
    requires 0 <= i < |Run(cfg, Init(cfg, scripts), steps).sessions|
    ensures var s := Run(cfg, Init(cfg, scripts), steps).sessions[i];
      s.client.Left? || Undefined(s) || CanStep(Run(cfg, Init(cfg, scripts), steps), Step(i, a))
  {
    hide GoodScript;
    InitInv(cfg, scripts);
    RunKeeps(cfg, Init(cfg, scripts), steps);
    a := SessionCanStep(cfg, Run(cfg, Init(cfg, scripts), steps).sessions[i]);
  }

  lemma SessionCanStep(cfg: Messages, s: Session) returns (a: Action)
    requires Complete(cfg) && Inv(cfg, s)
    ensures s.client.Left? || Undefined(s) || Enabled(s, a)
  {
    hide GoodScript, GoodDialogue, LoginRun, Reply, Parse, Message, Format, ListLines, LoginAfter, Concat, Find;
    if Greeting(cfg, s) {
      a := if s.server.Sending? then ServerSend(1) else ClientRecv;
      HelloIsLine(cfg);
      assert s.client.got + "" + "" == s.client.got;
    } else if AtPrompt(cfg, s) {
      a := ReadLine;
    } else if Querying(cfg, s) {
      a := if s.client.Asking? then ClientSend(1) else ServerRecv;
      assert s.server.got + "" + "" == s.server.got;
    } else if Deciding(cfg, s) {
      a := ServerAct;
    } else if Departing(s) {
      a := if s.client.Leaving? then ClientSend(1) else ReadLine;
    } else {
      a := if s.server.Sending? then ServerSend(1) else if s.server.AtSize? || s.server.AtList? then ServerAct else ClientRecv;
      assert Replying(cfg, s);
      if s.toClient == "" && (s.server.Receiving? || s.server.Closed?) {
        ReplyNotRead(cfg, s);
      }
    }
  }

  /** A client still waiting for a reply that was all sent has bytes of it to read. */
  lemma ReplyNotRead(cfg: Messages, s: Session)
    requires Complete(cfg) && Replying(cfg, s) && (s.server.Receiving? || s.server.Closed?)
    ensures s.toClient != ""
  {
    hide LoginRun, Reply, Parse, Message, Format, ListLines, LoginAfter, Concat, CmdOf, Find;
    QueryIsLine(s.query);
    ArgumentIsLine(s.query);
    ReplyShape(cfg, Before(cfg, s), CmdOf(s.query), s.effect);
    EndsWith226(s.said);
    if s.toClient == "" {
      var got, n := s.client.got, |s.seen|;
      assert Concat(s.seen) + got + "" + "" == Concat(s.seen) + got;
      LinesReadPrefix(s.seen, got, s.said);
      if n < |s.said| {
        LinesStart(s.said[n..], got);
      }
      assert false;
    }
  }

  lemma EndsWith226(reply: seq<string>)
    requires WellShaped(reply)
    ensures reply != [] && (Code(reply[0]) == "150" ==> |reply| >= 2 && Code(reply[|reply| - 1]) == "226")
  {
  }

  lemma LinesStart(lines: seq<string>, got: string)
    requires lines != [] && AllLines(lines) && got == Concat(lines)
    ensures !NoNewline(got)
  {
    FindAppend(lines[0], Concat(lines[1..]), '\n');
  }
}
