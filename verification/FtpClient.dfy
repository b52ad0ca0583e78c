/** The client of the directory server (common_client.cpp): what it reads for each line it
    sends, and what it shows. */
module FtpClient {
  import opened Text
  import opened Lines
  import opened Network
  import opened FtpCommand
  import opened FtpProtocol
  import opened FtpSession
  import opened FtpInvariant
  import opened FtpServer

  /** The first three characters of a string: the position after its last character holds a
      NUL, the positions beyond may hold anything. */
  method GetCode(receivedString: string) returns (code: string)
    ensures |code| == 3
    ensures forall k :: 0 <= k < 3 && k < |receivedString| ==> code[k] == receivedString[k]
    ensures |receivedString| < 3 ==> code[|receivedString|] == NUL
  {
    code := "";
    for i := 0 to 3
      invariant |code| == i
      invariant forall k :: 0 <= k < i && k < |receivedString| ==> code[k] == receivedString[k]
      invariant |receivedString| < i ==> code[|receivedString|] == NUL
    {
      var c: char := *;
      if i < |receivedString| {
        c := receivedString[i];
      } else if i == |receivedString| {
        c := NUL;
      }
      code := code + [c];
    }
  }

  /** On short lines too the code read is the wanted one just when the line starts with it. */
  lemma CodeRead(line: string, code: string, id: string)
    requires line == "" || IsLine(line)
    requires IsCode(id) && |code| == 3 && forall k :: 0 <= k < 3 && k < |line| ==> code[k] == line[k]
    requires |line| < 3 ==> code[|line|] == NUL
    ensures code == id <==> Code(line) == id
  {
    if |line| >= 3 {
      assert code == line[..3];
    }
  }

  method IsListStart(str: string) returns (start: bool)
    requires IsLine(str)
    ensures start <==> Code(str) == "150"
  {
    var code := GetCode(str);
    CodeRead(str, code, "150");
    start := code == "150";
  }

  /** Reads the rest of a listing: it stops at the one line whose code is 226, whatever the
      lines before it say. */
  method ReceiveList(socket: Socket, ghost lines: seq<string>, ghost rest: string) returns (shown: string)
    requires !socket.id.lossy && AllLines(lines) && lines != []
    requires forall k :: 0 <= k < |lines| ==> (Code(lines[k]) == "226" <==> k == |lines| - 1)
    requires socket.id.incoming == Concat(lines) + rest
    modifies socket`isAlive, socket.id`incoming
    ensures shown == Concat(lines) && socket.id.incoming == rest
  {
    hide Concat, IsLine, Code;
    var listItem := "";
    shown := "";
    var code := GetCode(listItem);
    ghost var n := 0;
    NothingListed(code, lines);
    while code != "226"
      invariant 0 <= n <= |lines| && (code == "226" <==> n == |lines|)
      invariant shown == Concat(lines[..n]) && socket.id.incoming == Concat(lines[n..]) + rest
      decreases |lines| - n
    {
      NextOf(lines, n, rest);
      listItem := ReceiveString(socket, lines[n], Concat(lines[n + 1..]) + rest);
      ConcatSnoc(lines[..n], listItem);
      shown := shown + listItem;
      code := GetCode(listItem);
      CodeRead(listItem, code, "226");
      n := n + 1;
    }
    AllOf(lines, n, rest);
  }

  lemma NothingListed(code: string, lines: seq<string>)
    requires |code| == 3 && code[0] == NUL
    ensures code != "226" && Concat(lines[..0]) == "" && lines[0..] == lines
  {
  }

  lemma NextOf(lines: seq<string>, n: int, rest: string)
    requires 0 <= n < |lines|
    ensures Concat(lines[n..]) + rest == lines[n] + (Concat(lines[n + 1..]) + rest)
    ensures lines[..n + 1] == lines[..n] + [lines[n]]
  {
    assert lines[n..][1..] == lines[n + 1..];
  }

  lemma AllOf(lines: seq<string>, n: int, rest: string)
    requires n == |lines|
    ensures lines[..n] == lines && Concat(lines[n..]) + rest == rest
  {
  }

  /** Reads one reply, whatever its shape, and nothing more. */
  method ReceiveReply(socket: Socket, ghost reply: seq<string>, ghost rest: string) returns (shown: string)
    requires !socket.id.lossy && WellShaped(reply) && socket.id.incoming == Concat(reply) + rest
    modifies socket`isAlive, socket.id`incoming
    ensures shown == Concat(reply) && socket.id.incoming == rest
  {
    hide Concat, IsLine, Code;
    NextOf(reply, 0, rest);
    WholeReply(reply, rest);
    var response := ReceiveString(socket, reply[0], Concat(reply[1..]) + rest);
    shown := response;
    var start := IsListStart(response);
    if start {
      var list := ReceiveList(socket, reply[1..], rest);
      shown := shown + list;
    }
  }

  lemma WholeReply(reply: seq<string>, rest: string)
    requires reply != []
    ensures reply[0..] == reply && Concat(reply) == reply[0] + Concat(reply[1..])
    ensures |reply| == 1 ==> Concat(reply[1..]) + rest == rest && reply[0] + Concat(reply[1..]) == reply[0]
  {
  }

  /** The whole client, with the replies on their way: it sends the queries and a farewell,
      shows the greeting and every reply in full, and leaves nothing unread. The test for the
      answer to QUIT stands after a condition that is always true, so it is never made. */
  method RunClient(socket: Socket, script: seq<string>, ghost hello: string, ghost replies: seq<seq<string>>)
    returns (shown: string)
    requires !socket.id.lossy && forall k :: 0 <= k < |script| ==> NoNewline(script[k])
    requires IsLine(hello) && |replies| == |Queries(script)|
    requires forall k :: 0 <= k < |replies| ==> WellShaped(replies[k])
    requires socket.id.incoming == hello + Concat(Texts(replies))
    modifies socket`isAlive, socket.id`incoming, socket.id`outgoing
    ensures socket.id.outgoing == old(socket.id.outgoing) + Concat(Queries(script)) + "\n"
    ensures shown == hello + Concat(Texts(replies)) && socket.id.incoming == ""
  {
    hide Concat, IsLine, WellShaped, Texts, Find, Code;
    var next := 0;
    var running := true;
    ghost var n, start := 0, socket.id.outgoing;
    shown := ReceiveString(socket, hello, Concat(Texts(replies)));
    StartOf(script, replies, start, hello);
    while running
      invariant 0 <= next <= |script| && 0 <= n <= |replies|
      invariant running ==> Queries(script)[n..] == Queries(script[next..])
      invariant !running ==> n == |replies|
      invariant shown == hello + Concat(Texts(replies[..n]))
      invariant socket.id.incoming == Concat(Texts(replies[n..]))
      invariant socket.id.outgoing == start + Concat(Queries(script)[..n]) + if running then "" else "\n"
      decreases running, |script| - next
    {
      var userInput := "";
      if next < |script| {
        userInput := script[next];
      }
      userInput := userInput + "\n";
      if userInput != "\n" {
        QueryNext(script, replies, next, n);
        SendString(socket, userInput);
        var reply := ReceiveReply(socket, replies[n], Concat(Texts(replies[n + 1..])));
        QuerySent(script, replies, n, start, hello);
        shown := shown + reply;
        n := n + 1;
        next := next + 1;
      } else {
        SendString(socket, userInput);
        running := false;
        assert Stops(script[next..]);
      }
    }
    EndOf(script, replies);
  }

  lemma StartOf(script: seq<string>, replies: seq<seq<string>>, start: string, hello: string)
    ensures script[0..] == script && Queries(script)[0..] == Queries(script) && replies[0..] == replies
    ensures hello + Concat(Texts(replies[..0])) == hello && start + Concat(Queries(script)[..0]) + "" == start
  {
  }

  lemma QueryNext(script: seq<string>, replies: seq<seq<string>>, next: int, n: int)
    requires 0 <= next < |script| && script[next] + "\n" != "\n" && |replies| == |Queries(script)|
    requires 0 <= n <= |replies| && Queries(script)[n..] == Queries(script[next..])
    ensures n < |replies| && Queries(script)[n] == script[next] + "\n"
    ensures Queries(script)[n + 1..] == Queries(script[next + 1..])
    ensures Concat(Texts(replies[n..])) == Concat(replies[n]) + Concat(Texts(replies[n + 1..]))
  {
    var qs := Queries(script[next..]);
    assert script[next..][1..] == script[next + 1..];
    assert script[next] != "";
    assert qs == [script[next] + "\n"] + Queries(script[next + 1..]);
    assert Queries(script)[n..][0] == Queries(script)[n];
    assert Queries(script)[n..][1..] == Queries(script)[n + 1..];
    assert Texts(replies[n..])[1..] == Texts(replies[n + 1..]);
  }

  lemma QuerySent(script: seq<string>, replies: seq<seq<string>>, n: int, start: string, hello: string)
    requires 0 <= n < |replies| == |Queries(script)|
    ensures start + Concat(Queries(script)[..n + 1]) == start + Concat(Queries(script)[..n]) + Queries(script)[n]
    ensures hello + Concat(Texts(replies[..n + 1])) == hello + Concat(Texts(replies[..n])) + Concat(replies[n])
  {
    hide Concat;
    var qs := Queries(script);
    assert qs[..n + 1] == qs[..n] + [qs[n]];
    ConcatSnoc(qs[..n], qs[n]);
    assert Texts(replies[..n + 1]) == Texts(replies[..n]) + [Concat(replies[n])];
    ConcatSnoc(Texts(replies[..n]), Concat(replies[n]));
  }

  lemma EndOf(script: seq<string>, replies: seq<seq<string>>)
    ensures replies[..|replies|] == replies && Queries(script)[..|Queries(script)|] == Queries(script)
    ensures Concat(Texts(replies[|replies|..])) == ""
  {
  }

  /** What the server sends for a client's queries is what the client needs to read it: with
      QUIT as the last query at most, there is one well-shaped reply for every query. */
  lemma ServerSuitsClient(cfg: Messages, dirs: seq<string>, script: seq<string>)
    requires Complete(cfg) && GoodDirs(dirs) && AllQueries(Queries(script)) && Defined(cfg, dirs, Queries(script))
    requires forall k :: 0 <= k < |Queries(script)| - 1 ==> CmdOf(Queries(script)[k]) != Quit
    ensures var sv := Serve(cfg, dirs, Queries(script));
      && |sv.replies| == |Queries(script)| && (forall k :: 0 <= k < |sv.replies| ==> WellShaped(sv.replies[k]))
      && IsLine(Hello(cfg))
  {
    hide WellShaped, CmdOf, IsLine, Hello, Serve;
    ServeGood(cfg, dirs, Queries(script));
    HelloIsLine(cfg);
  }
}
