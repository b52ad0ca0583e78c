/** Queries, the login automaton and the replies (common_command.cpp, Command.h). */
module FtpCommand {
  import opened Text
  import opened Lines
  import opened FtpDirectories

  datatype Cmd =
    | User(arg: string) | Pass(arg: string) | Syst | List | Help | Pwd
    | Mkd(arg: string) | Rmd(arg: string) | Quit | Invalid

  // ---- From a query to a command ----

  function Identify(name: string, arg: string): Cmd {
    if name == "USER" then User(arg)
    else if name == "PASS" then Pass(arg)
    else if name == "SYST" then Syst
    else if name == "LIST" then List
    else if name == "HELP" then Help
    else if name == "PWD" then Pwd
    else if name == "MKD" then Mkd(arg)
    else if name == "RMD" then Rmd(arg)
    else if name == "QUIT" then Quit
    else Invalid
  }

  /** A short query loses its last character and has no argument; a long one is split at its
      first space, and without a space the whole of it serves as name and as argument. */
  function Parse(query: string): Cmd
    requires query != ""
  {
    if |query| <= 5 then Identify(query[..|query| - 1], "")
    else if Find(query, ' ') == |query| then Identify(query, query)
    else Identify(query[..Find(query, ' ')], query[Find(query, ' ') + 1..])
  }

  const SIZE_RANGE := 0x1_0000_0000_0000_0000
  const NPOS := SIZE_RANGE - 1

  /** std::string::find, with its value for nothing found. */
  function FindPosition(s: string, c: char): int {
    if Find(s, c) == |s| then NPOS else Find(s, c)
  }

  /** std::string::substr; a position past the end would throw. */
  function Substr(s: string, pos: int, count: int): string
    requires 0 <= pos <= |s| && 0 <= count
  {
    if count < |s| - pos then s[pos..pos + count] else s[pos..]
  }

  /** create_command, with its unsigned arithmetic: when there is no space the position of
      the argument wraps around to 0 and the length of the name to npos. */
  method CreateCommand(query: string) returns (cmd: Cmd)
    requires 0 < |query| < NPOS
    ensures cmd == Parse(query)
  {
    hide Identify;
    var input, argument := query, "";
    if |input| > 5 {
      var argumentStart := (FindPosition(input, ' ') + 1) % SIZE_RANGE;
      argument := Substr(input, argumentStart, NPOS);
      input := Substr(input, 0, (argumentStart - 1) % SIZE_RANGE);
    } else {
      input := input[..|input| - 1];
    }
    cmd := Identify(input, argument);
  }

  function Argument(c: Cmd): string {
    match c
    case User(a) => a
    case Pass(a) => a
    case Mkd(a) => a
    case Rmd(a) => a
    case _ => ""
  }

  lemma IdentifyArgument(name: string, arg: string)
    ensures Argument(Identify(name, arg)) == "" || Argument(Identify(name, arg)) == arg
  {
  }

  /** The argument of a query line is empty or a line itself. */
  lemma ArgumentIsLine(query: string)
    requires IsLine(query)
    ensures Argument(Parse(query)) == "" || IsLine(Argument(Parse(query)))
  {
    hide Identify, Argument, Find;
    var n := Find(query, ' ');
    if |query| <= 5 {
      IdentifyArgument(query[..|query| - 1], "");
    } else if n == |query| {
      IdentifyArgument(query, query);
    } else {
      IdentifyArgument(query[..n], query[n + 1..]);
      assert query == query[..n + 1] + query[n + 1..];
      FindAppend(query[..n + 1], query[n + 1..], '\n');
    }
  }

  /** How a command is typed: the argument brings its newline along. */
  function Print(c: Cmd): string {
    match c
    case User(a) => "USER " + a
    case Pass(a) => "PASS " + a
    case Syst => "SYST" + "\n"
    case List => "LIST" + "\n"
    case Help => "HELP" + "\n"
    case Pwd => "PWD" + "\n"
    case Mkd(a) => "MKD " + a
    case Rmd(a) => "RMD " + a
    case Quit => "QUIT" + "\n"
    case Invalid => "" + "\n"
  }

  lemma ParseNamed(name: string, arg: string)
    requires Find(name, ' ') == |name| && |name| + 1 + |arg| > 5
    ensures Parse(name + " " + arg) == Identify(name, arg)
  {
    hide Identify, Find;
    var q := name + " " + arg;
    assert q == name + (" " + arg);
    FindAppend(name, " " + arg, ' ');
    SpaceFirst(arg);
    assert q[..|name|] == name && q[|name| + 1..] == arg;
  }

  lemma SpaceFirst(arg: string)
    ensures Find(" " + arg, ' ') == 0
  {
  }

  lemma ParseAlone(name: string)
    requires |name| <= 4
    ensures Parse(name + "\n") == Identify(name, "")
  {
    hide Identify;
    assert (name + "\n")[..|name|] == name;
  }

  /** Typing a command and parsing it gives the command back. */
  lemma ParsePrint(c: Cmd)
    requires (c.User? || c.Pass? || c.Mkd? || c.Rmd?) ==> |Argument(c)| >= 2
    ensures Parse(Print(c)) == c
  {
    hide Parse, Find;
    match c
    case User(a) => FindNothing("USER", ' '); ParseNamed("USER", a); assert Print(c) == "USER" + " " + a;
    case Pass(a) => FindNothing("PASS", ' '); ParseNamed("PASS", a); assert Print(c) == "PASS" + " " + a;
    case Mkd(a) => FindNothing("MKD", ' '); ParseNamed("MKD", a); assert Print(c) == "MKD" + " " + a;
    case Rmd(a) => FindNothing("RMD", ' '); ParseNamed("RMD", a); assert Print(c) == "RMD" + " " + a;
    case Syst => ParseAlone("SYST");
    case List => ParseAlone("LIST");
    case Help => ParseAlone("HELP");
    case Pwd => ParseAlone("PWD");
    case Quit => ParseAlone("QUIT");
    case Invalid => ParseAlone("");
  }

  // ---- Which queries name which command ----

  /** A query that is the bare word, or the word and a space in front of something. */
  predicate Asks(query: string, word: string) {
    query == word + "\n" || (|query| > 5 && word + " " <= query)
  }

  /** The text of a query and the command it names; every other line names none. */
  predicate Means(query: string, c: Cmd) {
    match c
    case User(a) => (query == "USER\n" && a == "") || (|query| > 5 && query == "USER " + a)
    case Pass(a) => (query == "PASS\n" && a == "") || (|query| > 5 && query == "PASS " + a)
    case Syst => Asks(query, "SYST")
    case List => Asks(query, "LIST")
    case Help => Asks(query, "HELP")
    case Pwd => Asks(query, "PWD")
    case Mkd(a) => (query == "MKD\n" && a == "") || (|query| > 5 && query == "MKD " + a)
    case Rmd(a) => (query == "RMD\n" && a == "") || (|query| > 5 && query == "RMD " + a)
    case Quit => Asks(query, "QUIT")
    case Invalid =>
      && !Asks(query, "USER") && !Asks(query, "PASS") && !Asks(query, "SYST") && !Asks(query, "LIST") && !Asks(query, "HELP")
      && !Asks(query, "PWD") && !Asks(query, "MKD") && !Asks(query, "RMD") && !Asks(query, "QUIT")
  }

  /** The two parts a query is identified by. */
  function NamePart(query: string): string
    requires query != ""
  {
    if |query| <= 5 then query[..|query| - 1] else query[..Find(query, ' ')]
  }

  function ArgumentPart(query: string): string
    requires query != ""
  {
    if |query| <= 5 then "" else if Find(query, ' ') == |query| then query else query[Find(query, ' ') + 1..]
  }

  lemma ParseParts(query: string)
    requires query != ""
    ensures Parse(query) == Identify(NamePart(query), ArgumentPart(query))
  {
    assert query[..|query|] == query;
  }

  /** The name part is a given word just when the query asks with it. */
  lemma NamePartIs(query: string, word: string)
    requires IsLine(query) && |word| <= 4 && ' ' !in word
    ensures NamePart(query) == word <==> Asks(query, word)
    ensures Asks(query, word) ==> ArgumentPart(query) == if query == word + "\n" then "" else query[|word| + 1..]
  {
    hide Find, IsLine;
    LineBody(query);
    if |query| > 5 {
      LongNameIs(query, word);
    }
  }

  lemma LongNameIs(query: string, word: string)
    requires |query| > 5 && |word| <= 4 && ' ' !in word
    ensures query[..Find(query, ' ')] == word <==> word + " " <= query
    ensures word + " " <= query ==> Find(query, ' ') == |word|
  {
    hide Find;
    FindNothing(word, ' ');
    FindMeaning(query, ' ');
    var n := Find(query, ' ');
    if n < |query| && query[..n] == word {
      assert query[..n + 1] == word + " ";
    }
    if word + " " <= query {
      assert query == word + (" " + query[|word| + 1..]);
      FindAppend(word, " " + query[|word| + 1..], ' ');
      SpaceFirst(query[|word| + 1..]);
    }
  }

  lemma NamePartWith(query: string, word: string, a: string)
    requires IsLine(query) && |word| <= 4 && ' ' !in word
    ensures NamePart(query) == word && ArgumentPart(query) == a
      <==> (query == word + "\n" && a == "") || (|query| > 5 && query == word + " " + a)
  {
    hide NamePart, ArgumentPart, Find;
    NamePartIs(query, word);
    assert word + " " + a == word + (" " + a);
    if query == word + " " + a {
      assert query[|word| + 1..] == a && query[..|word| + 1] == word + " ";
    }
    if word + " " <= query {
      assert query == word + " " + query[|word| + 1..];
    }
  }

  /** Whom a name and an argument stand for. */
  predicate StandsFor(name: string, arg: string, c: Cmd) {
    match c
    case User(a) => name == "USER" && arg == a
    case Pass(a) => name == "PASS" && arg == a
    case Syst => name == "SYST"
    case List => name == "LIST"
    case Help => name == "HELP"
    case Pwd => name == "PWD"
    case Mkd(a) => name == "MKD" && arg == a
    case Rmd(a) => name == "RMD" && arg == a
    case Quit => name == "QUIT"
    case Invalid =>
      && name != "USER" && name != "PASS" && name != "SYST" && name != "LIST" && name != "HELP"
      && name != "PWD" && name != "MKD" && name != "RMD" && name != "QUIT"
  }

  lemma IdentifyMeans(name: string, arg: string, c: Cmd)
    ensures Identify(name, arg) == c <==> StandsFor(name, arg, c)
  {
  }

  lemma InvalidMeans(query: string)
    requires IsLine(query)
    ensures StandsFor(NamePart(query), ArgumentPart(query), Invalid) <==> Means(query, Invalid)
  {
    hide NamePart, ArgumentPart, Find, Asks, IsLine;
    NamePartIs(query, "USER");
    NamePartIs(query, "PASS");
    NamePartIs(query, "SYST");
    NamePartIs(query, "LIST");
    NamePartIs(query, "HELP");
    NamePartIs(query, "PWD");
    NamePartIs(query, "MKD");
    NamePartIs(query, "RMD");
    NamePartIs(query, "QUIT");
  }

  lemma PlainMeans(query: string, c: Cmd)
    requires IsLine(query) && (c.Syst? || c.List? || c.Help? || c.Pwd? || c.Quit?)
    ensures StandsFor(NamePart(query), ArgumentPart(query), c) <==> Means(query, c)
  {
    hide NamePart, ArgumentPart, Find, Asks, IsLine;
    match c
    case Syst => NamePartIs(query, "SYST");
    case List => NamePartIs(query, "LIST");
    case Help => NamePartIs(query, "HELP");
    case Pwd => NamePartIs(query, "PWD");
    case Quit => NamePartIs(query, "QUIT");
  }

  lemma ArgumentMeans(query: string, c: Cmd)
    requires IsLine(query) && (c.User? || c.Pass? || c.Mkd? || c.Rmd?)
    ensures StandsFor(NamePart(query), ArgumentPart(query), c) <==> Means(query, c)
  {
    hide NamePart, ArgumentPart, Find, IsLine;
    match c
    case User(a) => NamePartWith(query, "USER", a); assert "USER" + " " + a == "USER " + a && "USER" + "\n" == "USER\n";
    case Pass(a) => NamePartWith(query, "PASS", a); assert "PASS" + " " + a == "PASS " + a && "PASS" + "\n" == "PASS\n";
    case Mkd(a) => NamePartWith(query, "MKD", a); assert "MKD" + " " + a == "MKD " + a && "MKD" + "\n" == "MKD\n";
    case Rmd(a) => NamePartWith(query, "RMD", a); assert "RMD" + " " + a == "RMD " + a && "RMD" + "\n" == "RMD\n";
  }

  /** What every query line means: the nine words, each with its own shape, and no others. */
  lemma ParseMeans(query: string, c: Cmd)
    requires IsLine(query)
    ensures Parse(query) == c <==> Means(query, c)
  {
    hide NamePart, ArgumentPart, Find, Asks, Parse, Identify, StandsFor, Means;
    ParseParts(query);
    IdentifyMeans(NamePart(query), ArgumentPart(query), c);
    if c.Invalid? {
      InvalidMeans(query);
    } else if c.User? || c.Pass? || c.Mkd? || c.Rmd? {
      ArgumentMeans(query, c);
    } else {
      PlainMeans(query, c);
    }
  }

  // ---- Login ----

  datatype Login = Login(user: string, logged: bool)

  const NOBODY := Login("", false)

  type Messages = map<string, string>

  datatype Key =
    | NewClient | UserName | Password | PassRequired | LoginFailed | LoginSuccess | NotLogged | CurrentDirectory | ListBegin
    | ListEnd | MkdSuccess | MkdFailed | RmdSuccess | RmdFailed | QuitSuccess | Commands | SystemInfo | UnknownCommand

  /** The name a message has in the configuration file. */
  function KeyName(k: Key): string {
    match k
    case NewClient => "newClient"
    case UserName => "user"
    case Password => "password"
    case PassRequired => "passRequired"
    case LoginFailed => "loginFailed"
    case LoginSuccess => "loginSuccess"
    case NotLogged => "clientNotLogged"
    case CurrentDirectory => "currentDirectoryMsg"
    case ListBegin => "listBegin"
    case ListEnd => "listEnd"
    case MkdSuccess => "mkdSuccess"
    case MkdFailed => "mkdFailed"
    case RmdSuccess => "rmdSuccess"
    case RmdFailed => "rmdFailed"
    case QuitSuccess => "quitSuccess"
    case Commands => "commands"
    case SystemInfo => "systemInfo"
    case UnknownCommand => "unknownCommand"
  }

  /** Every message the server uses is configured and is a line. */
  ghost predicate Complete(cfg: Messages) {
    forall k: Key :: KeyName(k) in cfg && IsLine(cfg[KeyName(k)])
  }

  /** The names the configuration file must bind. */
  lemma ConfiguredNames(cfg: Messages)
    requires Complete(cfg)
    ensures "newClient" in cfg && "user" in cfg && "password" in cfg && "passRequired" in cfg
    ensures "loginFailed" in cfg && "loginSuccess" in cfg && "clientNotLogged" in cfg && "currentDirectoryMsg" in cfg
    ensures "listBegin" in cfg && "listEnd" in cfg && "mkdSuccess" in cfg && "mkdFailed" in cfg
    ensures "rmdSuccess" in cfg && "rmdFailed" in cfg && "quitSuccess" in cfg
    ensures "commands" in cfg && "systemInfo" in cfg && "unknownCommand" in cfg
  {
    assert forall k: Key :: KeyName(k) in cfg;
    assert KeyName(NewClient) in cfg && KeyName(UserName) in cfg && KeyName(Password) in cfg && KeyName(PassRequired) in cfg;
    assert KeyName(LoginFailed) in cfg && KeyName(LoginSuccess) in cfg && KeyName(NotLogged) in cfg;
    assert KeyName(CurrentDirectory) in cfg && KeyName(ListBegin) in cfg && KeyName(ListEnd) in cfg;
    assert KeyName(MkdSuccess) in cfg && KeyName(MkdFailed) in cfg && KeyName(RmdSuccess) in cfg && KeyName(RmdFailed) in cfg;
    assert KeyName(QuitSuccess) in cfg && KeyName(Commands) in cfg && KeyName(SystemInfo) in cfg && KeyName(UnknownCommand) in cfg;
  }

  ghost function Message(cfg: Messages, k: Key): string
    requires Complete(cfg)
  {
    cfg[KeyName(k)]
  }

  /** What a command does to the session. */
  ghost function LoginAfter(cfg: Messages, l: Login, c: Cmd): Login
    requires Complete(cfg)
  {
    match c
    case User(u) => l.(user := u)
    case Pass(p) => if l.user == Message(cfg, UserName) && p == Message(cfg, Password) then l.(logged := true) else l
    case _ => l
  }

  ghost function LoginRun(cfg: Messages, cmds: seq<Cmd>): Login
    requires Complete(cfg)
  {
    if cmds == [] then NOBODY else LoginAfter(cfg, LoginRun(cfg, cmds[..|cmds| - 1]), cmds[|cmds| - 1])
  }

  /** The latest USER among the first n commands named this user. */
  ghost predicate LatestUser(cmds: seq<Cmd>, n: int, user: string)
    requires 0 <= n <= |cmds|
  {
    exists j :: 0 <= j < n && cmds[j] == User(user) && forall k :: j < k < n ==> !cmds[k].User?
  }

  /** Command k was a PASS with the right password while the latest USER was the right one. */
  ghost predicate RightPass(cfg: Messages, cmds: seq<Cmd>, k: int)
    requires Complete(cfg) && 0 <= k < |cmds|
  {
    ConfiguredNames(cfg);
    cmds[k] == Pass(cfg["password"]) && LatestUser(cmds, k, cfg["user"])
  }

  /** A USER starts anew; any other command leaves the latest USER as it was. */
  lemma LatestUserStep(cmds: seq<Cmd>, n: int, user: string)
    requires 0 <= n < |cmds|
    ensures LatestUser(cmds, n + 1, user) <==> if cmds[n].User? then cmds[n].arg == user else LatestUser(cmds, n, user)
  {
    if cmds[n] == User(user) {
      assert LatestUser(cmds, n + 1, user);
    } else if !cmds[n].User? && LatestUser(cmds, n, user) {
      var j :| 0 <= j < n && cmds[j] == User(user) && forall k :: j < k < n ==> !cmds[k].User?;
      assert forall k :: j < k < n + 1 ==> !cmds[k].User?;
    }
  }

  lemma {:induction false} UserIsLatest(cfg: Messages, cmds: seq<Cmd>, user: string)
    requires Complete(cfg) && user != ""
    ensures LoginRun(cfg, cmds).user == user <==> LatestUser(cmds, |cmds|, user)
  {
    if cmds != [] {
      var front, n := cmds[..|cmds| - 1], |cmds| - 1;
      UserIsLatest(cfg, front, user);
      LatestUserPrefix(front, cmds, n, user);
      LatestUserStep(cmds, n, user);
    }
  }

  /** A session is logged in exactly when some earlier PASS was right; it never logs out. */
  lemma {:induction false} LoggedIsHistory(cfg: Messages, cmds: seq<Cmd>)
    requires Complete(cfg)
    ensures LoginRun(cfg, cmds).logged <==> exists k :: 0 <= k < |cmds| && RightPass(cfg, cmds, k)
  {
    ConfiguredNames(cfg);
    assert Message(cfg, UserName) == cfg["user"] && Message(cfg, Password) == cfg["password"];
    if cmds != [] {
      var front, n := cmds[..|cmds| - 1], |cmds| - 1;
      LoggedIsHistory(cfg, front);
      MessageIsLine(cfg, UserName);
      UserIsLatest(cfg, front, Message(cfg, UserName));
      forall k | 0 <= k < n ensures RightPass(cfg, front, k) <==> RightPass(cfg, cmds, k) {
        LatestUserPrefix(front, cmds, k, Message(cfg, UserName));
      }
      LatestUserPrefix(front, cmds, n, Message(cfg, UserName));
      assert RightPass(cfg, cmds, n) <==> cmds[n] == Pass(Message(cfg, Password)) && LoginRun(cfg, front).user == Message(cfg, UserName);
      if LoginRun(cfg, front).logged {
        var k :| 0 <= k < |front| && RightPass(cfg, front, k);
        assert RightPass(cfg, cmds, k);
      }
    }
  }

  lemma LatestUserPrefix(front: seq<Cmd>, cmds: seq<Cmd>, n: int, user: string)
    requires front <= cmds && 0 <= n <= |front|
    ensures LatestUser(front, n, user) <==> LatestUser(cmds, n, user)
  {
    assert forall k :: 0 <= k < n ==> front[k] == cmds[k];
    if LatestUser(front, n, user) {
      var j :| 0 <= j < n && front[j] == User(user) && forall k :: j < k < n ==> !front[k].User?;
      assert cmds[j] == User(user) && forall k :: j < k < n ==> !cmds[k].User?;
    }
    if LatestUser(cmds, n, user) {
      var j :| 0 <= j < n && cmds[j] == User(user) && forall k :: j < k < n ==> !cmds[k].User?;
      assert front[j] == User(user) && forall k :: j < k < n ==> !front[k].User?;
    }
  }

  // ---- Replies ----

  /** What a command that touches the shared directories found or did there. */
  datatype Effect =
    | NoEffect
    | Added(name: string) | AlreadyThere(name: string)
    | Removed(name: string) | NotThere(name: string)
    | Listed(names: seq<string>)

  /** Only a logged-in MKD, RMD or LIST touches the directories. */
  predicate Touches(l: Login, c: Cmd) {
    l.logged && (c.Mkd? || c.Rmd? || c.List?)
  }

  /** The effect belongs to the command. */
  ghost predicate Fits(l: Login, c: Cmd, e: Effect) {
    if !Touches(l, c) then e == NoEffect
    else match c
      case Mkd(a) => e == Added(a) || e == AlreadyThere(a)
      case Rmd(a) => e == Removed(a) || e == NotThere(a)
      case _ => e.Listed? && AllLines(e.names)
  }

  /** The three-argument format_cmd. */
  function Format(id: string, message: string): string {
    id + " " + message
  }

  /** The four-argument format_cmd drops the newline of the name it quotes. */
  function FormatName(id: string, name: string, message: string): string
    requires name != ""
  {
    id + " " + "\"" + name[..|name| - 1] + "\" " + message
  }

  /** The commands that need a login get 530 without one. */
  ghost function IfLogged(cfg: Messages, l: Login, reply: seq<string>): seq<string>
    requires Complete(cfg)
  {
    if l.logged then reply else [Format("530", Message(cfg, NotLogged))]
  }

  /** The lines sent in answer to a command. */
  ghost function Reply(cfg: Messages, l: Login, c: Cmd, e: Effect): seq<string>
    requires Complete(cfg)
  {
    match c
    case User(_) => [Format("331", Message(cfg, PassRequired))]
    case Pass(p) =>
      if l.user == Message(cfg, UserName) && p == Message(cfg, Password) then [Format("230", Message(cfg, LoginSuccess))]
      else [Format("530", Message(cfg, LoginFailed))]
    case Syst => IfLogged(cfg, l, [Format("215", Message(cfg, SystemInfo))])
    case List => IfLogged(cfg, l, ListReply(cfg, if e.Listed? then e.names else []))
    case Help => IfLogged(cfg, l, [Format("214", Message(cfg, Commands))])
    case Pwd => IfLogged(cfg, l, [Format("257", Message(cfg, CurrentDirectory))])
    case Mkd(a) => IfLogged(cfg, l,
      [if e.Added? && a != "" then FormatName("257", a, Message(cfg, MkdSuccess)) else Format("550", Message(cfg, MkdFailed))])
    case Rmd(a) => IfLogged(cfg, l,
      [if e.Removed? && a != "" then FormatName("250", a, Message(cfg, RmdSuccess)) else Format("550", Message(cfg, RmdFailed))])
    case Quit => [Format("221", Message(cfg, QuitSuccess))]
    case Invalid => [Format("530", Message(cfg, UnknownCommand))]
  }

  ghost function ListReply(cfg: Messages, names: seq<string>): seq<string>
    requires Complete(cfg)
  {
    [Format("150", Message(cfg, ListBegin))] + ListLines(names) + [Format("226", Message(cfg, ListEnd))]
  }

  ghost function Hello(cfg: Messages): string
    requires Complete(cfg)
  {
    Format("220", Message(cfg, NewClient))
  }

  /** The first three characters of a reply line. */
  function Code(line: string): string {
    if |line| < 3 then line else line[..3]
  }

  /** How replies look to a client that only sees lines: one line, unless the first has code
      150; then the reply ends with the only later line whose code is 226. */
  ghost predicate WellShaped(reply: seq<string>) {
    && reply != [] && AllLines(reply)
    && if Code(reply[0]) == "150"
       then |reply| >= 2 && forall k :: 1 <= k < |reply| ==> (Code(reply[k]) == "226" <==> k == |reply| - 1)
       else |reply| == 1
  }

  lemma FormatIsLine(id: string, message: string)
    requires |id| == 3 && NoNewline(id) && IsLine(message)
    ensures IsLine(Format(id, message)) && Code(Format(id, message)) == id
  {
    FindNothing(" ", '\n');
    JoinNoNewline(id, " ");
    JoinNoNewline(id + " ", message);
    assert Format(id, message)[..3] == id;
  }

  lemma FormatNameIsLine(id: string, name: string, message: string)
    requires |id| == 3 && NoNewline(id) && IsLine(message) && IsLine(name)
    ensures IsLine(FormatName(id, name, message)) && Code(FormatName(id, name, message)) == id
  {
    var body := name[..|name| - 1];
    LineBody(name);
    FindNothing("\" ", '\n');
    FindNothing(" \"", '\n');
    JoinNoNewline("\" ", message);
    JoinNoNewline(body, "\" " + message);
    JoinNoNewline(" \"", body + ("\" " + message));
    JoinNoNewline(id, " \"" + (body + ("\" " + message)));
    assert FormatName(id, name, message) == id + (" \"" + (body + ("\" " + message)));
    assert FormatName(id, name, message)[..3] == id;
  }

  predicate IsCode(id: string) {
    |id| == 3 && forall k :: 0 <= k < 3 ==> '0' <= id[k] <= '9'
  }

  lemma CodeHasNoNewline(id: string)
    requires IsCode(id)
    ensures NoNewline(id)
  {
    FindNothing(id, '\n');
  }

  lemma MessageIsLine(cfg: Messages, k: Key)
    requires Complete(cfg)
    ensures IsLine(Message(cfg, k))
  {
  }

  /** Listing lines all start like the prefix, so no directory name can look like 226. */
  lemma ListLineCode(names: seq<string>, k: int)
    requires 0 <= k < |names|
    ensures Code(ListLines(names)[k]) == "drw"
  {
    assert DIR_FORMAT[0] == 'd' && DIR_FORMAT[1] == 'r' && DIR_FORMAT[2] == 'w';
    assert ListLines(names)[k][..3] == DIR_FORMAT[..3] == "drw";
  }

  lemma ListReplyShape(first: string, names: seq<string>, last: string)
    requires IsLine(first) && Code(first) == "150" && IsLine(last) && Code(last) == "226" && AllLines(names)
    ensures WellShaped([first] + ListLines(names) + [last])
  {
    var r := [first] + ListLines(names) + [last];
    ListLinesAreLines(names);
    forall k | 1 <= k < |r| - 1 ensures Code(r[k]) != "226" {
      ListLineCode(names, k - 1);
    }
  }

  lemma FormattedMessage(cfg: Messages, id: string, k: Key)
    requires Complete(cfg) && IsCode(id)
    ensures IsLine(Format(id, Message(cfg, k))) && Code(Format(id, Message(cfg, k))) == id
  {
    CodeHasNoNewline(id);
    MessageIsLine(cfg, k);
    FormatIsLine(id, Message(cfg, k));
  }

  lemma FormattedName(cfg: Messages, id: string, name: string, k: Key)
    requires Complete(cfg) && IsCode(id) && IsLine(name)
    ensures IsLine(FormatName(id, name, Message(cfg, k))) && Code(FormatName(id, name, Message(cfg, k))) == id
  {
    CodeHasNoNewline(id);
    MessageIsLine(cfg, k);
    FormatNameIsLine(id, name, Message(cfg, k));
  }

  lemma SingleLine(line: string, id: string)
    requires IsLine(line) && Code(line) == id && id != "150"
    ensures WellShaped([line]) && Code([line][0]) != "150"
  {
  }

  /** Every reply is well shaped, whatever the command, the session and the directories. */
  lemma ReplyShape(cfg: Messages, l: Login, c: Cmd, e: Effect)
    requires Complete(cfg) && Fits(l, c, e)
    requires Argument(c) == "" || IsLine(Argument(c))
    ensures WellShaped(Reply(cfg, l, c, e))
    ensures Code(Reply(cfg, l, c, e)[0]) == "150" <==> c == List && l.logged
  {
    hide IsLine, Format, FormatName, ListLines, KeyName, Message, WellShaped, Code;
    FormattedMessage(cfg, "530", NotLogged);
    SingleLine(Format("530", Message(cfg, NotLogged)), "530");
    if c == List && l.logged {
      FormattedMessage(cfg, "150", ListBegin);
      FormattedMessage(cfg, "226", ListEnd);
      ListReplyShape(Format("150", Message(cfg, ListBegin)), e.names, Format("226", Message(cfg, ListEnd)));
    } else if (c.Mkd? && l.logged && e.Added? && c.arg != "") {
      FormattedName(cfg, "257", c.arg, MkdSuccess);
      SingleLine(FormatName("257", c.arg, Message(cfg, MkdSuccess)), "257");
    } else if (c.Rmd? && l.logged && e.Removed? && c.arg != "") {
      FormattedName(cfg, "250", c.arg, RmdSuccess);
      SingleLine(FormatName("250", c.arg, Message(cfg, RmdSuccess)), "250");
    } else {
      PlainReplyShape(cfg, l, c, e);
    }
  }

  /** The code of a reply tells what the command did: to the login, and to the directories. */
  lemma ReplyTells(cfg: Messages, l: Login, c: Cmd, e: Effect)
    requires Complete(cfg) && Fits(l, c, e)
    ensures var code := Code(Reply(cfg, l, c, e)[0]);
      && (c.Pass? ==> if l.user == Message(cfg, UserName) && c.arg == Message(cfg, Password)
                      then code == "230" && LoginAfter(cfg, l, c).logged
                      else code == "530" && LoginAfter(cfg, l, c) == l)
      && (c.Mkd? && l.logged && IsLine(c.arg) ==> code == if e == Added(c.arg) then "257" else "550")
      && (c.Rmd? && l.logged && IsLine(c.arg) ==> code == if e == Removed(c.arg) then "250" else "550")
  {
    hide IsLine, Format, FormatName, KeyName, Message, Code;
    FormattedMessage(cfg, "230", LoginSuccess);
    FormattedMessage(cfg, "530", LoginFailed);
    FormattedMessage(cfg, "550", MkdFailed);
    FormattedMessage(cfg, "550", RmdFailed);
    if (c.Mkd? || c.Rmd?) && IsLine(c.arg) {
      LineBody(c.arg);
      FormattedName(cfg, "257", c.arg, MkdSuccess);
      FormattedName(cfg, "250", c.arg, RmdSuccess);
    }
  }

  /** The replies that quote no name and list nothing. */
  lemma PlainReplyShape(cfg: Messages, l: Login, c: Cmd, e: Effect)
    requires Complete(cfg) && Fits(l, c, e) && !(c == List && l.logged)
    requires !(c.Mkd? && l.logged && e.Added? && c.arg != "") && !(c.Rmd? && l.logged && e.Removed? && c.arg != "")
    ensures WellShaped(Reply(cfg, l, c, e)) && Code(Reply(cfg, l, c, e)[0]) != "150"
  {
    hide IsLine, Format, FormatName, ListLines, KeyName, Message, WellShaped, Code;
    var (id, k) :=
      match c
      case User(_) => ("331", PassRequired)
      case Pass(p) =>
        if l.user == Message(cfg, UserName) && p == Message(cfg, Password) then ("230", LoginSuccess) else ("530", LoginFailed)
      case Syst => if l.logged then ("215", SystemInfo) else ("530", NotLogged)
      case List => ("530", NotLogged)
      case Help => if l.logged then ("214", Commands) else ("530", NotLogged)
      case Pwd => if l.logged then ("257", CurrentDirectory) else ("530", NotLogged)
      case Mkd(_) => if l.logged then ("550", MkdFailed) else ("530", NotLogged)
      case Rmd(_) => if l.logged then ("550", RmdFailed) else ("530", NotLogged)
      case Quit => ("221", QuitSuccess)
      case Invalid => ("530", UnknownCommand);
    FormattedMessage(cfg, id, k);
    SingleLine(Format(id, Message(cfg, k)), id);
  }
}
