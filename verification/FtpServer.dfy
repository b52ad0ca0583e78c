/** The server's side of one session, step by step: the shared directories, the answer to
    each command (common_command.cpp) and the loop that attends a client
    (common_server.cpp). Here nobody else takes the locks; the interleavings of many
    sessions are in FtpConcurrent. */
module FtpServer {
  import opened Text
  import opened Lines
  import opened Network
  import opened FtpConfig
  import opened FtpDirectories
  import opened FtpCommand
  import opened FtpProtocol
  import opened FtpReplies
  import opened FtpSession
  import opened FtpInvariant

  /** What the thread remembers of its client. */
  class Client {
    var logged: bool
    var quit: bool
    var possibleUser: string

    constructor ()
      ensures State() == NOBODY && !quit
    {
      logged, quit, possibleUser := false, false, "";
    }

    function State(): Login
      reads this
    {
      Login(possibleUser, logged)
    }
  }

  class Server {
    var directories: seq<string>

    constructor ()
      ensures directories == []
    {
      directories := [];
    }

    method AddDirectory(directory: string) returns (added: bool)
      requires StrictlySorted(directories)
      modifies this
      ensures added <==> directory !in old(directories)
      ensures StrictlySorted(directories) && Names(directories) == old(Names(directories)) + {directory}
      ensures directories == if added then Insert(old(directories), directory) else old(directories)
    {
      hide StrictlySorted, Insert;
      if directory !in directories {
        InsertSorted(directories, directory);
        directories := Insert(directories, directory);
        return true;
      }
      assert directory in Names(directories);
      return false;
    }

    method RemoveDirectory(directory: string) returns (removed: bool)
      requires StrictlySorted(directories)
      modifies this
      ensures removed <==> directory in old(directories)
      ensures StrictlySorted(directories) && Names(directories) == old(Names(directories)) - {directory}
      ensures directories == if removed then Erase(old(directories), directory) else old(directories)
    {
      hide StrictlySorted, Erase;
      if directory in directories {
        EraseSorted(directories, directory);
        directories := Erase(directories, directory);
        return true;
      }
      assert directory !in Names(directories);
      return false;
    }

    method DirectoriesSize() returns (n: int)
      ensures n == |directories|
    {
      n := |directories|;
    }

    method GetList() returns (list: string)
      ensures list == Listing(directories)
      ensures forall k :: 0 <= k < |directories| ==>
        ListLines(directories)[k] == "drwxrwxrwx 0 1000 1000 4096 Sep 24 12:34 " + directories[k]
      ensures StrictlySorted(directories) ==>
        forall i, j :: 0 <= i < j < |directories| ==> Precedes(directories[i], directories[j])
    {
      hide ListLines, StrictlySorted, Precedes;
      list := "";
      EmptyListLines();
      for i := 0 to |directories|
        invariant list == Concat(ListLines(directories[..i]))
      {
        ListLinesSnoc(directories, i);
        ConcatSnoc(ListLines(directories[..i]), DIR_FORMAT + directories[i]);
        list := list + (DIR_FORMAT + directories[i]);
      }
      assert directories[..|directories|] == directories;
      forall k | 0 <= k < |directories|
        ensures ListLines(directories)[k] == "drwxrwxrwx 0 1000 1000 4096 Sep 24 12:34 " + directories[k]
      {
        ListLineIs(directories, k);
      }
      if StrictlySorted(directories) {
        SortedPrecedes(directories);
      }
    }
  }

  lemma ListLinesSnoc(names: seq<string>, i: int)
    requires 0 <= i < |names|
    ensures ListLines(names[..i + 1]) == ListLines(names[..i]) + [DIR_FORMAT + names[i]]
  {
  }

  /** What a command does to the directories when nobody interferes. */
  function Handle(l: Login, dirs: seq<string>, c: Cmd): (seq<string>, Effect) {
    if !Touches(l, c) then (dirs, NoEffect)
    else if c.List? then (dirs, Listed(dirs))
    else DirectoryStep(dirs, c)
  }

  method SendMessage(cfg: Config, socket: Socket, id: string, key: Key)
    requires !socket.id.lossy && Complete(cfg.configmap)
    modifies socket`isAlive, socket.id`outgoing
    ensures socket.id.outgoing == old(socket.id.outgoing) + Concat([Format(id, Message(cfg.configmap, key))])
  {
    hide Format, KeyName, IsLine;
    var cmd := Format(id, cfg.GetMessage(KeyName(key)));
    ConcatOne(cmd);
    SendString(socket, cmd);
  }

  method SendName(cfg: Config, socket: Socket, id: string, name: string, key: Key)
    requires !socket.id.lossy && Complete(cfg.configmap) && name != ""
    modifies socket`isAlive, socket.id`outgoing
    ensures socket.id.outgoing == old(socket.id.outgoing) + Concat([FormatName(id, name, Message(cfg.configmap, key))])
  {
    hide FormatName, KeyName, IsLine;
    var cmd := FormatName(id, name, cfg.GetMessage(KeyName(key)));
    ConcatOne(cmd);
    SendString(socket, cmd);
  }

  method ListResponse(cfg: Config, socket: Socket, server: Server)
    requires !socket.id.lossy && Complete(cfg.configmap)
    modifies socket`isAlive, socket.id`outgoing
    ensures socket.id.outgoing == old(socket.id.outgoing) + Concat(ListReply(cfg.configmap, server.directories))
  {
    hide Format, Message, Concat, ListLines, IsLine;
    ghost var begin, names, end := [Format("150", Message(cfg.configmap, ListBegin))], ListLines(server.directories),
      [Format("226", Message(cfg.configmap, ListEnd))];
    SendMessage(cfg, socket, "150", ListBegin);
    var n := server.DirectoriesSize();
    if n > 0 {
      var list := server.GetList();
      SendString(socket, list);
    } else {
      EmptyListLines();
      NothingToSend(socket.id.outgoing);
    }
    SendMessage(cfg, socket, "226", ListEnd);
    ConcatAppend(begin, names);
    ConcatAppend(begin + names, end);
    AppendThrice(old(socket.id.outgoing), Concat(begin), Concat(names), Concat(end));
  }

  lemma NothingToSend(out: string)
    ensures out + Concat([]) == out
  {
  }

  lemma AppendThrice(out: string, a: string, b: string, c: string)
    ensures out + a + b + c == out + (a + b + c)
  {
  }

  /** send_response of each command: the reply goes out, the session and the directories
      move as the command says. A bare MKD of a logged-in client is not defined. */
  method SendResponse(cmd: Cmd, cfg: Config, socket: Socket, server: Server, cli: Client)
    requires !socket.id.lossy && Complete(cfg.configmap) && GoodDirs(server.directories)
    requires cmd == Mkd("") ==> !cli.logged
    modifies socket`isAlive, socket.id`outgoing, server, cli
    ensures var l := old(cli.State());
      var (next, effect) := Handle(l, old(server.directories), cmd);
      && server.directories == next
      && socket.id.outgoing == old(socket.id.outgoing) + Concat(Reply(cfg.configmap, l, cmd, effect))
      && cli.State() == LoginAfter(cfg.configmap, l, cmd)
    ensures var l := old(cli.State());
      var effect := Handle(l, old(server.directories), cmd).1;
      Prescribed(cfg.configmap, l.logged, ConfiguredUser(cfg.configmap, l), cmd, effect, Reply(cfg.configmap, l, cmd, effect))
    ensures cli.quit == (old(cli.quit) || cmd.Quit?)
  {
    hide Format, FormatName, Concat, ListReply, Insert, Erase, StrictlySorted, KeyName, IsLine, Prescribed, ConfiguredUser;
    HandlePrescribed(cfg.configmap, cli.State(), server.directories, cmd);
    match cmd
    case User(user) =>
      SendMessage(cfg, socket, "331", PassRequired);
      cli.possibleUser := user;
    case Pass(pass) =>
      if cli.possibleUser == cfg.GetMessage(KeyName(UserName)) && pass == cfg.GetMessage(KeyName(Password)) {
        SendMessage(cfg, socket, "230", LoginSuccess);
        cli.logged := true;
      } else {
        SendMessage(cfg, socket, "530", LoginFailed);
      }
    case Syst =>
      if cli.logged { SendMessage(cfg, socket, "215", SystemInfo); } else { SendMessage(cfg, socket, "530", NotLogged); }
    case List =>
      if cli.logged { ListResponse(cfg, socket, server); } else { SendMessage(cfg, socket, "530", NotLogged); }
    case Help =>
      if cli.logged { SendMessage(cfg, socket, "214", Commands); } else { SendMessage(cfg, socket, "530", NotLogged); }
    case Pwd =>
      if cli.logged { SendMessage(cfg, socket, "257", CurrentDirectory); } else { SendMessage(cfg, socket, "530", NotLogged); }
    case Mkd(dirname) =>
      if cli.logged {
        var added := server.AddDirectory(dirname);
        if added {
          SendName(cfg, socket, "257", dirname, MkdSuccess);
        } else {
          SendMessage(cfg, socket, "550", MkdFailed);
        }
      } else {
        SendMessage(cfg, socket, "530", NotLogged);
      }
    case Rmd(dirname) =>
      if cli.logged {
        NoEmptyName(server.directories);
        var removed := server.RemoveDirectory(dirname);
        if removed {
          SendName(cfg, socket, "250", dirname, RmdSuccess);
        } else {
          SendMessage(cfg, socket, "550", RmdFailed);
        }
      } else {
        SendMessage(cfg, socket, "530", NotLogged);
      }
    case Quit =>
      cli.quit := true;
      SendMessage(cfg, socket, "221", QuitSuccess);
    case Invalid =>
      SendMessage(cfg, socket, "530", UnknownCommand);
  }

  lemma HandlePrescribed(cfg: Messages, l: Login, dirs: seq<string>, c: Cmd)
    requires Complete(cfg) && GoodDirs(dirs)
    ensures var effect := Handle(l, dirs, c).1;
      Prescribed(cfg, l.logged, ConfiguredUser(cfg, l), c, effect, Reply(cfg, l, c, effect))
  {
    hide Prescribed, ConfiguredUser, Reply, IsLine, StrictlySorted;
    ReplyIsPrescribed(cfg, l, c, Handle(l, dirs, c).1);
  }

  lemma NoEmptyName(dirs: seq<string>)
    requires AllLines(dirs)
    ensures "" !in dirs
  {
  }

  // ---- A whole session ----

  function Texts(replies: seq<seq<string>>): (texts: seq<string>)
    ensures |texts| == |replies|
  {
    seq(|replies|, k requires 0 <= k < |replies| => Concat(replies[k]))
  }

  /** A client attended up to some point: the replies it got, and where things stand. */
  datatype Service = Service(replies: seq<seq<string>>, dirs: seq<string>, login: Login, quit: bool)

  ghost function ServeOne(cfg: Messages, sv: Service, query: string): Service
    requires Complete(cfg)
  {
    if sv.quit then sv
    else
      var c := CmdOf(query);
      var (next, effect) := Handle(sv.login, sv.dirs, c);
      Service(sv.replies + [Reply(cfg, sv.login, c, effect)], next, LoginAfter(cfg, sv.login, c), c.Quit?)
  }

  ghost function Serve(cfg: Messages, dirs: seq<string>, queries: seq<string>): Service
    requires Complete(cfg)
  {
    if queries == [] then Service([], dirs, NOBODY, false)
    else ServeOne(cfg, Serve(cfg, dirs, queries[..|queries| - 1]), queries[|queries| - 1])
  }

  /** No query is the bare MKD of a logged-in client. */
  ghost predicate Defined(cfg: Messages, dirs: seq<string>, queries: seq<string>)
    requires Complete(cfg)
  {
    forall k :: 0 <= k < |queries| ==>
      var sv := Serve(cfg, dirs, queries[..k]);
      !sv.quit && sv.login.logged ==> CmdOf(queries[k]) != Mkd("")
  }

  ghost predicate AllQueries(queries: seq<string>) {
    forall k :: 0 <= k < |queries| ==> IsQuery(queries[k]) && |queries[k]| < NPOS
  }

  lemma ServeSnoc(cfg: Messages, dirs: seq<string>, queries: seq<string>, n: int)
    requires Complete(cfg) && 0 <= n < |queries|
    ensures Serve(cfg, dirs, queries[..n + 1]) == ServeOne(cfg, Serve(cfg, dirs, queries[..n]), queries[n])
  {
    hide ServeOne;
    assert queries[..n + 1][..n] == queries[..n];
  }

  lemma {:induction false} ServeAfterQuit(cfg: Messages, dirs: seq<string>, queries: seq<string>, n: int)
    requires Complete(cfg) && 0 <= n <= |queries| && Serve(cfg, dirs, queries[..n]).quit
    ensures Serve(cfg, dirs, queries) == Serve(cfg, dirs, queries[..n])
    decreases |queries|
  {
    if n == |queries| {
      assert queries[..n] == queries;
    } else {
      assert queries[..|queries| - 1][..n] == queries[..n];
      ServeAfterQuit(cfg, dirs, queries[..|queries| - 1], n);
    }
  }

  /** One query keeps the directories good, and its reply is well shaped. */
  lemma HandleGood(cfg: Messages, l: Login, dirs: seq<string>, query: string)
    requires Complete(cfg) && GoodDirs(dirs) && IsQuery(query)
    requires l.logged ==> CmdOf(query) != Mkd("")
    ensures var c := CmdOf(query); var (next, effect) := Handle(l, dirs, c);
      GoodDirs(next) && Legal(Names(dirs), effect, Names(next)) && WellShaped(Reply(cfg, l, c, effect))
  {
    hide IsLine, Parse, WellShaped, Reply, Insert, Erase, StrictlySorted, Argument;
    var c := CmdOf(query);
    QueryIsLine(query);
    ArgumentIsLine(query);
    if Touches(l, c) && !c.List? {
      ArgumentOf(c);
      DirectoryStepLegal(dirs, c);
    }
    ReplyShape(cfg, l, c, Handle(l, dirs, c).1);
  }

  lemma ArgumentOf(c: Cmd)
    requires c.Mkd? || c.Rmd?
    ensures Argument(c) == c.arg
  {
  }

  /** Every query up to QUIT was answered, with a reply the client can tell the end of. */
  ghost predicate AllAnswered(queries: seq<string>, sv: Service) {
    && |sv.replies| <= |queries|
    && (forall k :: 0 <= k < |sv.replies| ==> WellShaped(sv.replies[k]))
    && (forall k :: 0 <= k < |sv.replies| - 1 ==> CmdOf(queries[k]) != Quit)
    && if sv.quit then |sv.replies| > 0 && CmdOf(queries[|sv.replies| - 1]) == Quit
       else |sv.replies| == |queries| && (queries != [] ==> CmdOf(queries[|queries| - 1]) != Quit)
  }

  lemma AnsweredSnoc(queries: seq<string>, sv: Service, query: string, reply: seq<string>, next: Service)
    requires AllAnswered(queries, sv)
    requires if sv.quit then next == sv else
      WellShaped(reply) && next.replies == sv.replies + [reply] && (next.quit <==> CmdOf(query) == Quit)
    ensures AllAnswered(queries + [query], next)
  {
    hide WellShaped, CmdOf;
  }

  /** Served alone, from good directories. */
  lemma {:induction false} ServeGood(cfg: Messages, dirs: seq<string>, queries: seq<string>)
    requires Complete(cfg) && GoodDirs(dirs) && AllQueries(queries) && Defined(cfg, dirs, queries)
    ensures GoodDirs(Serve(cfg, dirs, queries).dirs) && AllAnswered(queries, Serve(cfg, dirs, queries))
  {
    hide GoodDirs, IsQuery, WellShaped, CmdOf, Handle, Reply, LoginAfter, AllAnswered, Legal;
    if queries == [] {
      NothingToAnswer(cfg, dirs);
    } else {
      var n := |queries| - 1;
      var front := queries[..n];
      assert Defined(cfg, dirs, front) by {
        assert forall k :: 0 <= k < n ==> front[..k] == queries[..k];
      }
      ServeGood(cfg, dirs, front);
      var sv := Serve(cfg, dirs, front);
      var c := CmdOf(queries[n]);
      if !sv.quit {
        HandleGood(cfg, sv.login, sv.dirs, queries[n]);
      }
      AnsweredSnoc(front, sv, queries[n], Reply(cfg, sv.login, c, Handle(sv.login, sv.dirs, c).1), Serve(cfg, dirs, queries));
      assert front + [queries[n]] == queries;
    }
  }

  function CommandsOf(queries: seq<string>): seq<Cmd> {
    seq(|queries|, k requires 0 <= k < |queries| => CmdOf(queries[k]))
  }

  /** The login state is the one the history of commands gives. */
  lemma {:induction false} ServeLogin(cfg: Messages, dirs: seq<string>, queries: seq<string>)
    requires Complete(cfg) && !Serve(cfg, dirs, queries).quit
    ensures Serve(cfg, dirs, queries).login == LoginRun(cfg, CommandsOf(queries))
  {
    hide CmdOf, Handle, Reply, LoginAfter;
    if queries != [] {
      var front := queries[..|queries| - 1];
      ServeLogin(cfg, dirs, front);
      assert CommandsOf(queries)[..|queries| - 1] == CommandsOf(front);
    }
  }

  lemma NothingToAnswer(cfg: Messages, dirs: seq<string>)
    requires Complete(cfg)
    ensures AllAnswered([], Serve(cfg, dirs, []))
  {
  }

  method RespondQuery(query: string, cfg: Config, socket: Socket, server: Server, cli: Client)
    requires !socket.id.lossy && Complete(cfg.configmap) && GoodDirs(server.directories)
    requires IsQuery(query) && |query| < NPOS
    requires cli.logged ==> CmdOf(query) != Mkd("")
    modifies socket`isAlive, socket.id`outgoing, server, cli
    ensures var l, c := old(cli.State()), CmdOf(query);
      var (next, effect) := Handle(l, old(server.directories), c);
      && server.directories == next
      && socket.id.outgoing == old(socket.id.outgoing) + Concat(Reply(cfg.configmap, l, c, effect))
      && cli.State() == LoginAfter(cfg.configmap, l, c)
    ensures var l := old(cli.State());
      var effect := Handle(l, old(server.directories), CmdOf(query)).1;
      Prescribed(cfg.configmap, l.logged, ConfiguredUser(cfg.configmap, l), CmdOf(query), effect, Reply(cfg.configmap, l, CmdOf(query), effect))
    ensures cli.quit == (old(cli.quit) || CmdOf(query).Quit?)
    ensures Means(query, CmdOf(query))
  {
    hide Parse, Handle, Reply, LoginAfter, Complete, GoodDirs, Prescribed, ConfiguredUser, Means;
    QueryIsLine(query);
    ParseMeans(query, CmdOf(query));
    var cmd := CreateCommand(query);
    SendResponse(cmd, cfg, socket, server, cli);
  }

  /** The thread after n queries: the directories, its client's login and what was sent. */
  ghost predicate Standing(cfg: Messages, dirs: seq<string>, queries: seq<string>, n: int,
                           now: seq<string>, login: Login, quit: bool, sent: string)
    requires Complete(cfg)
  {
    && 0 <= n <= |queries| && GoodDirs(now)
    && var sv := Serve(cfg, dirs, queries[..n]);
    |sv.replies| == n && now == sv.dirs && login == sv.login && quit == sv.quit && sent == Concat(Texts(sv.replies))
  }

  lemma StandingAtStart(cfg: Messages, dirs: seq<string>, queries: seq<string>)
    requires Complete(cfg) && GoodDirs(dirs)
    ensures Standing(cfg, dirs, queries, 0, dirs, NOBODY, false, "")
  {
  }

  lemma StandingNext(cfg: Messages, dirs: seq<string>, queries: seq<string>, n: int,
                     now: seq<string>, login: Login, sent: string)
    requires Complete(cfg) && AllQueries(queries) && Defined(cfg, dirs, queries)
    requires n < |queries| && Standing(cfg, dirs, queries, n, now, login, false, sent)
    ensures IsQuery(queries[n]) && |queries[n]| < NPOS && (login.logged ==> CmdOf(queries[n]) != Mkd(""))
    ensures var c := CmdOf(queries[n]); var (next, effect) := Handle(login, now, c);
      Standing(cfg, dirs, queries, n + 1, next, LoginAfter(cfg, login, c), c.Quit?, sent + Concat(Reply(cfg, login, c, effect)))
  {
    hide IsQuery, CmdOf, Handle, Reply, LoginAfter, GoodDirs, WellShaped, Legal, Serve, Concat;
    var sv := Serve(cfg, dirs, queries[..n]);
    var c := CmdOf(queries[n]);
    var reply := Reply(cfg, login, c, Handle(login, now, c).1);
    HandleGood(cfg, login, now, queries[n]);
    ServeSnoc(cfg, dirs, queries, n);
    assert Texts(sv.replies + [reply]) == Texts(sv.replies) + [Concat(reply)];
    ConcatSnoc(Texts(sv.replies), Concat(reply));
  }

  /** The thread has finished: by QUIT, or by the empty line after the last query. */
  lemma StandingAtEnd(cfg: Messages, dirs: seq<string>, queries: seq<string>, n: int,
                      now: seq<string>, login: Login, quit: bool, sent: string)
    requires Complete(cfg) && Standing(cfg, dirs, queries, n, now, login, quit, sent) && (quit || n == |queries|)
    ensures var sv := Serve(cfg, dirs, queries);
      now == sv.dirs && GoodDirs(now) && sent == Concat(Texts(sv.replies)) && quit == sv.quit && |sv.replies| == n
  {
    hide GoodDirs;
    if quit {
      ServeAfterQuit(cfg, dirs, queries, n);
    } else {
      assert queries[..n] == queries;
    }
  }

  lemma SentMore(greeted: string, sent: string, reply: string)
    ensures greeted + (sent + reply) == greeted + sent + reply
    ensures greeted + "" == greeted
  {
  }

  /** Attends one client whose queries are on the way, followed by an empty line: greets it
      and answers query after query until QUIT or the empty line. */
  method RespondClient(cfg: Config, socket: Socket, server: Server, ghost queries: seq<string>)
    requires !socket.id.lossy && Complete(cfg.configmap) && GoodDirs(server.directories)
    requires AllQueries(queries) && Defined(cfg.configmap, server.directories, queries)
    requires socket.id.incoming == Concat(queries) + "\n"
    modifies socket`isAlive, socket.id`outgoing, socket.id`incoming, server
    ensures var sv := Serve(cfg.configmap, old(server.directories), queries);
      && server.directories == sv.dirs && GoodDirs(sv.dirs)
      && socket.id.outgoing == old(socket.id.outgoing) + Hello(cfg.configmap) + Concat(Texts(sv.replies))
      && |sv.replies| <= |queries|
      && socket.id.incoming == if sv.quit then Concat(queries[|sv.replies|..]) + "\n" else ""
  {
    hide Serve, ServeOne, Reply, Hello, Handle, Concat, Texts, CmdOf, IsQuery, AllQueries, Defined, GoodDirs, Complete,
      IsLine, WellShaped, Legal, LoginAfter, Standing, Prescribed, ConfiguredUser, Means;
    ghost var messages, dirs := cfg.configmap, server.directories;
    var cli := new Client();
    SendHello(cfg, socket);
    ghost var greeted := socket.id.outgoing;
    ghost var n, sent, quit, farewell := 0, "", false, false;
    StandingAtStart(messages, dirs, queries);
    SentMore(greeted, "", "");
    assert queries[0..] == queries;
    while !cli.quit
      invariant 0 <= n <= |queries| && Standing(messages, dirs, queries, n, server.directories, cli.State(), quit, sent)
      invariant cli.quit == (quit || farewell) && (farewell ==> n == |queries| && !quit)
      invariant socket.id.outgoing == greeted + sent
      invariant socket.id.incoming == if farewell then "" else Concat(queries[n..]) + "\n"
      decreases |queries| - n, !cli.quit
    {
      StandingGood(messages, dirs, queries, n, server.directories, cli.State(), quit, sent);
      NextLine(queries, n);
      ghost var line := if n < |queries| then queries[n] else "\n";
      var query := ReceiveString(socket, line, if n < |queries| then Concat(queries[n + 1..]) + "\n" else "");
      if |query| > 1 {
        ghost var c, login := CmdOf(query), cli.State();
        ghost var reply := Concat(Reply(messages, login, c, Handle(login, server.directories, c).1));
        StandingNext(messages, dirs, queries, n, server.directories, login, sent);
        RespondQuery(query, cfg, socket, server, cli);
        SentMore(greeted, sent, reply);
        n, sent, quit := n + 1, sent + reply, c.Quit?;
      } else {
        cli.quit := true;
        farewell := true;
      }
    }
    StandingAtEnd(messages, dirs, queries, n, server.directories, cli.State(), quit, sent);
  }

  lemma StandingGood(cfg: Messages, dirs: seq<string>, queries: seq<string>, n: int,
                     now: seq<string>, login: Login, quit: bool, sent: string)
    requires Complete(cfg) && Standing(cfg, dirs, queries, n, now, login, quit, sent)
    ensures GoodDirs(now)
  {
    hide GoodDirs;
  }

  method SendHello(cfg: Config, socket: Socket)
    requires !socket.id.lossy && Complete(cfg.configmap)
    modifies socket`isAlive, socket.id`outgoing
    ensures socket.id.outgoing == old(socket.id.outgoing) + Hello(cfg.configmap)
    ensures "newClient" in cfg.configmap && Hello(cfg.configmap) == "220 " + cfg.configmap["newClient"]
  {
    hide Format, KeyName, IsLine;
    HelloIs(cfg.configmap);
    SendString(socket, Format("220", cfg.GetMessage(KeyName(NewClient))));
  }

  /** What is read next: a query, or the empty line after the last one. */
  lemma NextLine(queries: seq<string>, n: int)
    requires 0 <= n <= |queries| && AllQueries(queries)
    ensures n < |queries| ==> IsLine(queries[n]) && |queries[n]| > 1
    ensures n < |queries| ==> Concat(queries[n..]) + "\n" == queries[n] + (Concat(queries[n + 1..]) + "\n")
    ensures IsLine("\n")
    ensures n == |queries| ==> Concat(queries[n..]) + "\n" == "\n" + ""
  {
    if n < |queries| {
      assert queries[n..][1..] == queries[n + 1..];
    }
  }
}
