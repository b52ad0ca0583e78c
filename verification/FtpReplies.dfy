/** The replies, written out: for every command, login and effect the very lines, with their
    codes and the configuration entries they quote. */
module FtpReplies {
  import opened Text
  import opened Lines
  import opened FtpDirectories
  import opened FtpCommand

  /** The lines owed to a command. `logged` says whether the client is logged in, `named`
      whether its latest USER was the configured one. */
  ghost predicate Prescribed(cfg: Messages, logged: bool, named: bool, c: Cmd, e: Effect, reply: seq<string>)
    requires Complete(cfg)
  {
    ConfiguredNames(cfg);
    var refused := ["530 " + cfg["clientNotLogged"]];
    match c
    case User(_) => reply == ["331 " + cfg["passRequired"]]
    case Pass(p) =>
      reply == if named && p == cfg["password"] then ["230 " + cfg["loginSuccess"]] else ["530 " + cfg["loginFailed"]]
    case Syst => reply == if logged then ["215 " + cfg["systemInfo"]] else refused
    case Help => reply == if logged then ["214 " + cfg["commands"]] else refused
    case Pwd => reply == if logged then ["257 " + cfg["currentDirectoryMsg"]] else refused
    case Mkd(a) =>
      if !logged then reply == refused
      else if e == Added(a) && a != "" then reply == ["257 \"" + a[..|a| - 1] + "\" " + cfg["mkdSuccess"]]
      else reply == ["550 " + cfg["mkdFailed"]]
    case Rmd(a) =>
      if !logged then reply == refused
      else if e == Removed(a) && a != "" then reply == ["250 \"" + a[..|a| - 1] + "\" " + cfg["rmdSuccess"]]
      else reply == ["550 " + cfg["rmdFailed"]]
    case List =>
      if !logged then reply == refused
      else
        && e.Listed? && |reply| == |e.names| + 2
        && reply[0] == "150 " + cfg["listBegin"] && reply[|e.names| + 1] == "226 " + cfg["listEnd"]
        && forall k :: 0 <= k < |e.names| ==> reply[k + 1] == "drwxrwxrwx 0 1000 1000 4096 Sep 24 12:34 " + e.names[k]
    case Quit => reply == ["221 " + cfg["quitSuccess"]]
    case Invalid => reply == ["530 " + cfg["unknownCommand"]]
  }

  /** A code, a space and a message. */
  lemma FormatIs(id: string, start: string, message: string)
    requires id + " " == start
    ensures Format(id, message) == start + message
  {
  }

  lemma FormatNameIs(id: string, start: string, name: string, message: string)
    requires name != "" && id + " " + "\"" == start
    ensures FormatName(id, name, message) == start + name[..|name| - 1] + "\" " + message
  {
    var body := name[..|name| - 1];
    assert id + " " + "\"" + body + "\" " + message == start + body + "\" " + message;
  }

  /** The replies to USER and PASS, to QUIT, and to what is no command. */
  lemma SessionReplies(cfg: Messages, l: Login, c: Cmd, e: Effect)
    requires Complete(cfg) && (c.User? || c.Pass? || c.Quit? || c.Invalid?)
    ensures Prescribed(cfg, l.logged, ConfiguredUser(cfg, l), c, e, Reply(cfg, l, c, e))
  {
    hide Format, IsLine;
    FormatIs("331", "331 ", Message(cfg, PassRequired));
    FormatIs("230", "230 ", Message(cfg, LoginSuccess));
    FormatIs("530", "530 ", Message(cfg, LoginFailed));
    FormatIs("530", "530 ", Message(cfg, UnknownCommand));
    FormatIs("221", "221 ", Message(cfg, QuitSuccess));
  }

  /** The replies that only tell something. */
  lemma InformationReplies(cfg: Messages, l: Login, c: Cmd, e: Effect)
    requires Complete(cfg) && (c.Syst? || c.Help? || c.Pwd?)
    ensures Prescribed(cfg, l.logged, ConfiguredUser(cfg, l), c, e, Reply(cfg, l, c, e))
  {
    hide Format, IsLine;
    FormatIs("530", "530 ", Message(cfg, NotLogged));
    FormatIs("215", "215 ", Message(cfg, SystemInfo));
    FormatIs("214", "214 ", Message(cfg, Commands));
    FormatIs("257", "257 ", Message(cfg, CurrentDirectory));
  }

  lemma DirectoryReplies(cfg: Messages, l: Login, c: Cmd, e: Effect)
    requires Complete(cfg) && Fits(l, c, e) && (c.Mkd? || c.Rmd?)
    ensures Prescribed(cfg, l.logged, ConfiguredUser(cfg, l), c, e, Reply(cfg, l, c, e))
  {
    hide Format, FormatName, IsLine;
    FormatIs("530", "530 ", Message(cfg, NotLogged));
    FormatIs("550", "550 ", Message(cfg, MkdFailed));
    FormatIs("550", "550 ", Message(cfg, RmdFailed));
    if c.arg != "" {
      FormatNameIs("257", "257 \"", c.arg, Message(cfg, MkdSuccess));
      FormatNameIs("250", "250 \"", c.arg, Message(cfg, RmdSuccess));
    }
  }

  lemma ListReplies(cfg: Messages, l: Login, e: Effect)
    requires Complete(cfg) && Fits(l, List, e)
    ensures Prescribed(cfg, l.logged, ConfiguredUser(cfg, l), List, e, Reply(cfg, l, List, e))
  {
    hide Format, IsLine, ListLines;
    FormatIs("530", "530 ", Message(cfg, NotLogged));
    FormatIs("150", "150 ", Message(cfg, ListBegin));
    FormatIs("226", "226 ", Message(cfg, ListEnd));
    if l.logged {
      forall k | 0 <= k < |e.names|
        ensures ListLines(e.names)[k] == "drwxrwxrwx 0 1000 1000 4096 Sep 24 12:34 " + e.names[k]
      {
        ListLineIs(e.names, k);
      }
    }
  }

  ghost predicate ConfiguredUser(cfg: Messages, l: Login)
    requires Complete(cfg)
  {
    ConfiguredNames(cfg);
    l.user == cfg["user"]
  }

  /** The reply to every command is the prescribed one. */
  lemma ReplyIsPrescribed(cfg: Messages, l: Login, c: Cmd, e: Effect)
    requires Complete(cfg) && Fits(l, c, e)
    ensures Prescribed(cfg, l.logged, ConfiguredUser(cfg, l), c, e, Reply(cfg, l, c, e))
  {
    hide Prescribed, Reply, IsLine, ConfiguredUser;
    match c
    case User(_) => SessionReplies(cfg, l, c, e);
    case Pass(_) => SessionReplies(cfg, l, c, e);
    case Quit => SessionReplies(cfg, l, c, e);
    case Invalid => SessionReplies(cfg, l, c, e);
    case Syst => InformationReplies(cfg, l, c, e);
    case Help => InformationReplies(cfg, l, c, e);
    case Pwd => InformationReplies(cfg, l, c, e);
    case Mkd(_) => DirectoryReplies(cfg, l, c, e);
    case Rmd(_) => DirectoryReplies(cfg, l, c, e);
    case List => ListReplies(cfg, l, e);
  }

  /** The greeting. */
  lemma HelloIs(cfg: Messages)
    requires Complete(cfg)
    ensures "newClient" in cfg && Hello(cfg) == "220 " + cfg["newClient"]
  {
    hide Format, IsLine;
    ConfiguredNames(cfg);
    FormatIs("220", "220 ", Message(cfg, NewClient));
  }
}
