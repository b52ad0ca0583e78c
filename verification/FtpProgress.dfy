/** All sessions together come to an end, and by then every client has asked its whole script
    and read every reply. */
module FtpProgress {
  import opened FtpDirectories
  import opened FtpCommand
  import opened FtpSession
  import opened FtpInvariant
  import opened FtpConcurrent

  // ---- Clients ask their scripts ----

  /** The queries asked so far, and those still to be asked. */
  function Asked(s: Session): seq<string> {
    seq(|s.dialogue|, k requires 0 <= k < |s.dialogue| => s.dialogue[k].query)
    + if s.client.Asking? || s.client.AwaitReply? || s.client.AwaitList? then [s.query] else []
  }

  function ToAsk(s: Session): seq<string> {
    if s.client.Leaving? || s.client.Left? then [] else Queries(s.script)
  }

  predicate OfServer(a: Action) {
    a.ServerSend? || a.ServerRecv? || a.ServerAct?
  }

  /** The thread's steps leave alone what the client is at. */
  lemma ServerStepScript(cfg: Messages, dirs: seq<string>, s: Session, a: Action)
    requires Complete(cfg) && Enabled(s, a) && OfServer(a)
    ensures var t := Apply(cfg, dirs, s, a).session;
      t.script == s.script && t.client == s.client && t.dialogue == s.dialogue && t.query == s.query
  {
    hide Complete, Reply, LoginAfter, Listing, ListLines, Parse, DirectoryStep, Touches, Message, Format, Code;
  }

  lemma StepKeepsScript(cfg: Messages, dirs: seq<string>, s: Session, a: Action)
    requires Complete(cfg) && Enabled(s, a)
    ensures var t := Apply(cfg, dirs, s, a).session; Asked(t) + ToAsk(t) == Asked(s) + ToAsk(s)
  {
    hide Complete, ServerActStep, ServerSendStep, ServerRecvStep, Code;
    var t := Apply(cfg, dirs, s, a).session;
    if OfServer(a) {
      ServerStepScript(cfg, dirs, s, a);
    } else if a == ReadLine && !Stops(s.script) {
      assert Asked(t) == Asked(s) + [t.query];
      assert Asked(s) + [t.query] + Queries(t.script) == Asked(s) + ([t.query] + Queries(t.script));
    } else {
      assert Asked(t) == Asked(s) && ToAsk(t) == ToAsk(s);
    }
  }

  // ---- Every step uses something up ----

  /** Lines not read yet, and whether the client is still there. */
  function Turns(s: Session): nat {
    2 * |s.script| + if s.client.Leaving? || s.client.Left? then 0 else 1
  }

  /** How far the server is from having dealt with the current query. */
  function Stage(s: Session): nat {
    match s.server
    case Receiving(_) => if s.client.Asking? || s.client.Leaving? || s.toServer != "" then 7 else 0
    case Acting(_) => 6
    case Sending(_, ThenSize) => 5
    case AtSize => 4
    case AtList => 3
    case Sending(_, ThenEnd) => 2
    case Sending(_, _) => 1
    case Closed => 0
  }

  /** Bytes still to be sent and to be received. */
  function Traffic(s: Session): nat {
    2 * |Unasked(s.client)| + |s.toServer| + 2 * |Unsent(s.server)| + |s.toClient|
  }

  /** The first of three measures that changes goes down. */
  predicate Below(a: nat, b: nat, c: nat, x: nat, y: nat, z: nat) {
    a < x || (a == x && (b < y || (b == y && c < z)))
  }

  predicate Descends(s: Session, t: Session) {
    Below(Turns(t), Stage(t), Traffic(t), Turns(s), Stage(s), Traffic(s))
  }

  lemma ServerStepDescends(cfg: Messages, dirs: seq<string>, s: Session, a: Action)
    requires Complete(cfg) && Enabled(s, a) && OfServer(a)
    requires a.ServerSend? ==> s.toServer == "" && !s.client.Asking? && !s.client.Leaving?
    ensures Descends(s, Apply(cfg, dirs, s, a).session)
  {
    hide Complete, Reply, LoginAfter, Listing, ListLines, Parse, DirectoryStep, Touches, Message, Format,
      ReadLineStep, ClientRecvStep;
  }

  lemma StepDescends(cfg: Messages, dirs: seq<string>, s: Session, a: Action)
    requires Complete(cfg) && Inv(cfg, s) && Enabled(s, a)
    ensures Descends(s, Apply(cfg, dirs, s, a).session)
  {
    hide Inv, Complete, Greeting, Replying, Code, ServerActStep, ServerSendStep, ServerRecvStep;
    if a.ServerSend? {
      SendingPhase(cfg, s);
      SendingAlone(cfg, s);
    }
    if OfServer(a) {
      ServerStepDescends(cfg, dirs, s, a);
    }
  }

  /** While the server sends, the client is not sending. */
  lemma SendingAlone(cfg: Messages, s: Session)
    requires Complete(cfg) && (Greeting(cfg, s) || Replying(cfg, s))
    ensures s.toServer == "" && !s.client.Asking? && !s.client.Leaving?
  {
  }

  // ---- All sessions together ----

  function Sum(xs: seq<nat>): nat {
    if xs == [] then 0 else xs[0] + Sum(xs[1..])
  }

  lemma {:induction false} SumUpdate(xs: seq<nat>, i: int, v: nat)
    requires 0 <= i < |xs|
    ensures Sum(xs[i := v]) == Sum(xs) - xs[i] + v
  {
    if i == 0 {
      assert xs[0 := v][1..] == xs[1..];
    } else {
      assert xs[i := v][1..] == xs[1..][i - 1 := v];
      SumUpdate(xs[1..], i - 1, v);
    }
  }

  function AllTurns(ss: seq<Session>): seq<nat> {
    seq(|ss|, k requires 0 <= k < |ss| => Turns(ss[k]))
  }

  function AllStages(ss: seq<Session>): seq<nat> {
    seq(|ss|, k requires 0 <= k < |ss| => Stage(ss[k]))
  }

  function AllTraffic(ss: seq<Session>): seq<nat> {
    seq(|ss|, k requires 0 <= k < |ss| => Traffic(ss[k]))
  }

  ghost predicate SystemDescends(ss: seq<Session>, ts: seq<Session>) {
    Below(Sum(AllTurns(ts)), Sum(AllStages(ts)), Sum(AllTraffic(ts)), Sum(AllTurns(ss)), Sum(AllStages(ss)), Sum(AllTraffic(ss)))
  }

  lemma SystemStepDescends(cfg: Messages, sys: System, st: Step)
    requires Complete(cfg) && SystemInv(cfg, sys) && CanStep(sys, st)
    ensures SystemDescends(sys.sessions, Next(cfg, sys, st).sessions)
  {
    hide Inv, Apply, Enabled, Turns, Stage, Traffic, Complete;
    var s := sys.sessions[st.sid];
    var t := Apply(cfg, sys.dirs, s, st.action).session;
    StepDescends(cfg, sys.dirs, s, st.action);
    var ts := sys.sessions[st.sid := t];
    assert AllTurns(ts) == AllTurns(sys.sessions)[st.sid := Turns(t)];
    assert AllStages(ts) == AllStages(sys.sessions)[st.sid := Stage(t)];
    assert AllTraffic(ts) == AllTraffic(sys.sessions)[st.sid := Traffic(t)];
    SumUpdate(AllTurns(sys.sessions), st.sid, Turns(t));
    SumUpdate(AllStages(sys.sessions), st.sid, Stage(t));
    SumUpdate(AllTraffic(sys.sessions), st.sid, Traffic(t));
  }

  /** Step k of an endless run. */
  ghost predicate Follows(cfg: Messages, states: nat -> System, steps: nat -> Step, k: nat)
    requires Complete(cfg)
  {
    CanStep(states(k), steps(k)) && states(k + 1) == Next(cfg, states(k), steps(k))
  }

  lemma NoEndlessRun(cfg: Messages, states: nat -> System, steps: nat -> Step, n: nat)
    requires Complete(cfg) && SystemInv(cfg, states(n)) && forall k: nat :: Follows(cfg, states, steps, k)
    ensures false
    decreases Sum(AllTurns(states(n).sessions)), Sum(AllStages(states(n).sessions)), Sum(AllTraffic(states(n).sessions))
  {
    hide SystemInv, CanStep, Next, Complete;
    assert Follows(cfg, states, steps, n);
    StepKeepsSystem(cfg, states(n), steps(n));
    SystemStepDescends(cfg, states(n), steps(n));
    NoEndlessRun(cfg, states, steps, n + 1);
  }

  // ---- The main results ----

  /** However many sessions there are and however their steps interleave, no run goes on for
      ever: any endless list of steps breaks off at one that cannot be taken. */
  lemma EveryRunEnds(cfg: Messages, scripts: seq<seq<string>>, states: nat -> System, steps: nat -> Step)
    requires Complete(cfg) && forall i :: 0 <= i < |scripts| ==> GoodScript(scripts[i])
    requires states(0) == Init(cfg, scripts)
    ensures exists k: nat :: !Follows(cfg, states, steps, k)
  {
    hide GoodScript, Follows, SystemInv;
    InitInv(cfg, scripts);
    if forall k: nat :: Follows(cfg, states, steps, k) {
      NoEndlessRun(cfg, states, steps, 0);
    }
  }

  ghost predicate OnScripts(scripts: seq<seq<string>>, sys: System) {
    && |sys.sessions| == |scripts|
    && forall i :: 0 <= i < |scripts| ==> Asked(sys.sessions[i]) + ToAsk(sys.sessions[i]) == Queries(scripts[i])
  }

  lemma {:induction false} RunKeepsScripts(cfg: Messages, scripts: seq<seq<string>>, sys: System, steps: seq<Step>)
    requires Complete(cfg) && OnScripts(scripts, sys) && CanRun(cfg, sys, steps)
    ensures OnScripts(scripts, Run(cfg, sys, steps))
    decreases |steps|
  {
    hide Asked, ToAsk, Complete, Apply, Enabled, Queries;
    if steps != [] {
      var st := steps[0];
      StepKeepsScript(cfg, sys.dirs, sys.sessions[st.sid], st.action);
      RunKeepsScripts(cfg, scripts, Next(cfg, sys, st), steps[1..]);
    }
  }

  /** When nothing can move any more, and no session met a bare MKD, every client has left
      after asking exactly the queries of its script, with a good reply read for each, and
      its thread has finished. */
  lemma SessionsComplete(cfg: Messages, scripts: seq<seq<string>>, steps: seq<Step>, i: int)
    requires Complete(cfg) && Reachable(cfg, scripts, steps) && 0 <= i < |scripts|
    requires forall a :: !CanStep(Run(cfg, Init(cfg, scripts), steps), Step(i, a))
    ensures var sys := Run(cfg, Init(cfg, scripts), steps);
      && |sys.sessions| == |scripts|
      && var s := sys.sessions[i];
      && (Undefined(s) || (s.client.Left? && s.server.Closed? && s.toClient == ""))
      && (s.client.Left? ==> Asked(s) == Queries(scripts[i]) && |s.dialogue| == |Asked(s)|)
      && GoodDialogue(cfg, s.dialogue)
  {
    hide GoodScript, GoodDialogue, Queries;
    InitInv(cfg, scripts);
    RunKeeps(cfg, Init(cfg, scripts), steps);
    InitOnScripts(cfg, scripts);
    RunKeepsScripts(cfg, scripts, Init(cfg, scripts), steps);
    var sys := Run(cfg, Init(cfg, scripts), steps);
    var s := sys.sessions[i];
    var a := SessionCanStep(cfg, s);
    assert !CanStep(sys, Step(i, a));
    if s.client.Left? {
      assert !CanStep(sys, Step(i, ServerRecv));
      Farewell(cfg, s);
    }
  }

  lemma InitOnScripts(cfg: Messages, scripts: seq<seq<string>>)
    requires Complete(cfg)
    ensures OnScripts(scripts, Init(cfg, scripts))
  {
    hide Queries, Hello;
    forall i | 0 <= i < |scripts| ensures var s := Init(cfg, scripts).sessions[i]; Asked(s) + ToAsk(s) == Queries(scripts[i]) {
      assert [] + Queries(scripts[i]) == Queries(scripts[i]);
    }
  }

  lemma Farewell(cfg: Messages, s: Session)
    requires Complete(cfg) && Inv(cfg, s) && s.client.Left?
    ensures s.toClient == "" && (s.server.Closed? || Enabled(s, ServerRecv))
    ensures Asked(s) + ToAsk(s) == Asked(s) && |s.dialogue| == |Asked(s)|
  {
    hide GoodScript, GoodDialogue, Queries;
    assert Departing(s);
  }
}
