/** What the clients read in every run, word for word. */
module FtpTranscript {
  import opened Text
  import opened Lines
  import opened FtpDirectories
  import opened FtpCommand
  import opened FtpReplies
  import opened FtpSession
  import opened FtpInvariant
  import opened FtpConcurrent

  // ---- A session's effects are effects of the system ----

  lemma {:induction false} EffectAnswered(d: seq<Exchange>, k: int)
    requires 0 <= k < |d| && d[k].effect != NoEffect
    ensures Took(d[k].effect) in Answered(d)
  {
    var front, last := d[..|d| - 1], d[|d| - 1];
    if k == |d| - 1 {
      assert [Ask(last.query)] + EffectEvents(last.effect) + [Told(last.reply)]
        == [Ask(last.query), Took(last.effect), Told(last.reply)];
    } else {
      EffectAnswered(front, k);
      assert front[k] == d[k];
    }
  }

  lemma {:induction false} EffectOfHistory(h: seq<Stamped>, i: int, e: Effect)
    requires Took(e) in Project(h, i)
    ensures e in Effects(h)
  {
    if h != [] {
      var front, last := h[..|h| - 1], h[|h| - 1];
      if Took(e) in Project(front, i) {
        EffectOfHistory(front, i, e);
      } else {
        assert last.event == Took(e);
      }
    }
  }

  /** A listing in a legal sequence of effects is sorted. */
  lemma ListingSorted(es: seq<Effect>, e: Effect)
    requires SequentiallyLegal(es) && e in es && e.Listed?
    ensures StrictlySorted(e.names)
  {
    hide StrictlySorted;
    var j :| 0 <= j < |es| && es[j] == e;
    assert Legal(SetAfter(es[..j]), es[j], ApplyEffect(SetAfter(es[..j]), es[j]));
  }

  // ---- The main results ----

  /** Every exchange of every client in every run: the command is the one the query's words
      name, the reply is the prescribed one, line by line, given what this client typed
      before, and a listing gives the names in the order of their octets. */
  lemma Transcript(cfg: Messages, scripts: seq<seq<string>>, steps: seq<Step>, i: int, k: int)
    requires Complete(cfg) && Reachable(cfg, scripts, steps)
    requires 0 <= i < |Run(cfg, Init(cfg, scripts), steps).sessions|
    requires 0 <= k < |Run(cfg, Init(cfg, scripts), steps).sessions[i].dialogue|
    ensures "user" in cfg
    ensures var d := Run(cfg, Init(cfg, scripts), steps).sessions[i].dialogue;
      var x, c := d[k], CmdOf(d[k].query);
      && Means(x.query, c)
      && Prescribed(cfg, RightPassBefore(cfg, d, k), LatestUser(Cmds(d[..k]), k, cfg["user"]), c, x.effect, x.reply)
      && (x.effect.Listed? ==> forall a, b :: 0 <= a < b < |x.effect.names| ==> Precedes(x.effect.names[a], x.effect.names[b]))
  {
    hide GoodScript, GoodExchange, RightPass, LoginRun, Prescribed, Means, SequentiallyLegal, SetAfter, Effects, Project, Log,
      StrictlySorted, Precedes, CmdOf, Complete, LatestUser;
    ConfiguredNames(cfg);
    Linearizable(cfg, scripts, steps);
    var sys := Run(cfg, Init(cfg, scripts), steps);
    var d := sys.sessions[i].dialogue;
    var cmds, x := Cmds(d[..k]), d[k];
    LoggedIsHistory(cfg, cmds);
    ConfiguredUserIsLine(cfg);
    UserIsLatest(cfg, cmds, cfg["user"]);
    ExchangePrescribed(cfg, LoginRun(cfg, cmds), x);
    if x.effect.Listed? {
      EffectLogged(sys.sessions[i], k);
      EffectOfHistory(sys.history, i, x.effect);
      ListingSorted(Effects(sys.history), x.effect);
      SortedPrecedes(x.effect.names);
    }
  }

  lemma EffectLogged(s: Session, k: int)
    requires 0 <= k < |s.dialogue| && s.dialogue[k].effect != NoEffect
    ensures Took(s.dialogue[k].effect) in Log(s)
  {
    hide Answered;
    EffectAnswered(s.dialogue, k);
  }

  lemma ConfiguredUserIsLine(cfg: Messages)
    requires Complete(cfg)
    ensures "user" in cfg && cfg["user"] != ""
  {
    assert IsLine(cfg[KeyName(UserName)]);
  }

  lemma ExchangePrescribed(cfg: Messages, before: Login, x: Exchange)
    requires Complete(cfg) && GoodExchange(cfg, before, x)
    ensures "user" in cfg && Means(x.query, CmdOf(x.query))
    ensures Prescribed(cfg, before.logged, before.user == cfg["user"], CmdOf(x.query), x.effect, x.reply)
  {
    hide IsLine, Parse, Reply, Means, Prescribed;
    QueryIsLine(x.query);
    ParseMeans(x.query, CmdOf(x.query));
    ConfiguredNames(cfg);
    ReplyIsPrescribed(cfg, before, CmdOf(x.query), x.effect);
  }

  /** The first line every client reads is the greeting. */
  lemma Greeted(cfg: Messages, scripts: seq<seq<string>>, steps: seq<Step>, i: int)
    requires Complete(cfg) && Reachable(cfg, scripts, steps)
    requires 0 <= i < |Run(cfg, Init(cfg, scripts), steps).sessions|
    ensures "newClient" in cfg
    ensures var s := Run(cfg, Init(cfg, scripts), steps).sessions[i];
      s.client.AwaitHello? ==> s.client.got + s.toClient + Unsent(s.server) == "220 " + cfg["newClient"]
  {
    hide GoodScript, Inv;
    InitInv(cfg, scripts);
    RunKeeps(cfg, Init(cfg, scripts), steps);
    HelloIs(cfg);
    var s := Run(cfg, Init(cfg, scripts), steps).sessions[i];
    if s.client.AwaitHello? {
      GreetingOf(cfg, s);
    }
  }

  lemma GreetingOf(cfg: Messages, s: Session)
    requires Complete(cfg) && Inv(cfg, s) && s.client.AwaitHello?
    ensures s.client.got + s.toClient + Unsent(s.server) == Hello(cfg)
  {
    hide GoodScript, GoodDialogue, Hello;
  }
}
