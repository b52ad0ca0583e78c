/** The directory service's socket loops (common_socket.cpp) and its line framing
    (common_protocol.cpp). */
module FtpProtocol {
  import opened Text
  import opened Lines
  import opened Network

  class Socket {
    const id: Connection
    var isAlive: bool

    constructor (id: Connection)
      ensures this.id == id && isAlive
    {
      this.id, isAlive := id, true;
    }

    /** Offers buf[..len] until it is all accepted; an error is thrown when the last call
        reported one. What went out is a prefix, and all of it unless the connection broke. */
    method Send(len: int, buf: string) returns (threw: bool)
      requires 0 <= len <= |buf|
      modifies this`isAlive, id`outgoing
      ensures var k := |id.outgoing| - |old(id.outgoing)|;
        && 0 <= k <= len && id.outgoing == old(id.outgoing) + buf[..k]
        && (if k == len then !threw && isAlive == old(isAlive) else threw || !isAlive)
      ensures !id.lossy ==> !threw && id.outgoing == old(id.outgoing) + buf[..len]
    {
      var socketRunning := true;
      var bytesSent := 0;
      var st := 0;
      while socketRunning && bytesSent < len
        invariant 0 <= bytesSent <= len
        invariant id.outgoing == old(id.outgoing) + buf[..bytesSent]
        invariant socketRunning ==> st != -1 && isAlive == old(isAlive)
        invariant isAlive ==> old(isAlive)
        invariant !socketRunning ==> id.lossy && bytesSent < len && (st == -1 || !isAlive)
        decreases socketRunning, len - bytesSent
      {
        st := id.Send(buf[bytesSent..len]);
        if st == 0 {
          socketRunning := false;
          isAlive := false;
        } else if st == -1 {
          socketRunning := false;
        } else {
          assert buf[..bytesSent] + buf[bytesSent..len][..st] == buf[..bytesSent + st];
          bytesSent := bytesSent + st;
        }
      }
      threw := st == -1;
    }

    /** Collects len bytes in however many pieces they come. */
    method Receive(len: int, buf: array<char>) returns (n: int)
      requires 0 <= len <= buf.Length
      modifies this`isAlive, id`incoming, buf
      ensures n == -1 || 0 < n <= len
      ensures var k := if n == -1 then 0 else n;
        && k <= |old(id.incoming)|
        && (forall p :: 0 <= p < buf.Length ==> buf[p] == if p < k then old(id.incoming)[p] else old(buf[p]))
        && id.incoming == old(id.incoming)[k..]
        && (!id.lossy ==> k == Min(len, |old(id.incoming)|))
        && isAlive == (old(isAlive) && k > 0)
    {
      var socketRunning := true;
      var bytesReceived := 0;
      ghost var stream := id.incoming;
      while socketRunning && bytesReceived < len
        invariant 0 <= bytesReceived <= len && bytesReceived <= |stream|
        invariant forall p :: 0 <= p < buf.Length ==> buf[p] == if p < bytesReceived then stream[p] else old(buf[p])
        invariant id.incoming == stream[bytesReceived..]
        invariant socketRunning || id.lossy || id.incoming == ""
        invariant isAlive == old(isAlive)
        decreases socketRunning, len - bytesReceived
      {
        var st := id.Recv(buf, bytesReceived, len - bytesReceived);
        if st == 0 {
          socketRunning := false;
        } else if st == -1 {
          socketRunning := false;
        } else {
          bytesReceived := bytesReceived + st;
        }
      }
      if bytesReceived > 0 {
        n := bytesReceived;
      } else {
        isAlive := false;
        n := -1;
      }
    }
  }

  method SendString(socket: Socket, cmd: string)
    requires !socket.id.lossy
    modifies socket`isAlive, socket.id`outgoing
    ensures socket.id.outgoing == old(socket.id.outgoing) + cmd
  {
    var threw := socket.Send(|cmd|, cmd);
    assert cmd[..|cmd|] == cmd;
  }

  /** Reads one byte at a time up to a newline: exactly one line leaves the stream. */
  method ReceiveString(socket: Socket, ghost line: string, ghost rest: string) returns (str: string)
    requires !socket.id.lossy && IsLine(line) && socket.id.incoming == line + rest
    modifies socket`isAlive, socket.id`incoming
    ensures str == line && socket.id.incoming == rest
  {
    str := "";
    var aux := new char[1](_ => NUL);
    LineBody(line);
    FindNothing(line[..|line| - 1], '\n');
    while aux[0] != '\n'
      invariant |str| <= |line| && str == line[..|str|] && socket.id.incoming == line[|str|..] + rest
      invariant aux[0] == '\n' <==> |str| == |line|
      decreases |line| - |str|
    {
      assert (line[|str|..] + rest)[1..] == line[|str| + 1..] + rest;
      var c := line[|str|];
      assert c == '\n' <==> |str| == |line| - 1 by {
        if |str| < |line| - 1 {
          assert c in line[..|line| - 1];
        }
      }
      var n := socket.Receive(1, aux);
      str := str + [aux[0]];
    }
    assert line[|str|..] + rest == rest;
  }
}
