/** The short-count loops over a connected socket (socket.c). */
module SudokuSocket {
  import opened Network

  datatype SocketStatus =
    | SktReceptionFailure | SktReceptionSuccess | SktReceptionEnd
    | SktSendFailure | SktSendSuccess | SktConnected | SktShutdown

  class Socket {
    const skt: Connection
    var status: SocketStatus

    constructor (skt: Connection)
      ensures this.skt == skt && status == SktConnected
    {
      this.skt, status := skt, SktConnected;
    }

    /** Collects len bytes in however many pieces they come. The buffer gets the next k bytes
        of the stream and nothing else changes; without errors k is len, or less only because
        the stream ended. */
    method Receive(len: int, buf: array<char>) returns (n: int)
      requires 0 <= len <= buf.Length
      modifies this`status, skt`incoming, buf
      ensures n == -1 || 0 < n <= len
      ensures var k := if n == -1 then 0 else n;
        && k <= |old(skt.incoming)|
        && (forall p :: 0 <= p < buf.Length ==> buf[p] == if p < k then old(skt.incoming)[p] else old(buf[p]))
        && skt.incoming == old(skt.incoming)[k..]
        && (!skt.lossy ==> k == Min(len, |old(skt.incoming)|))
        && status == if k > 0 then SktReceptionSuccess else SktReceptionEnd
    {
      var socketRunning := true;
      var bytesReceived := 0;
      ghost var stream := skt.incoming;
      while socketRunning && bytesReceived < len
        invariant 0 <= bytesReceived <= len && bytesReceived <= |stream|
        invariant forall p :: 0 <= p < buf.Length ==> buf[p] == if p < bytesReceived then stream[p] else old(buf[p])
        invariant skt.incoming == stream[bytesReceived..]
        invariant socketRunning || skt.lossy || skt.incoming == ""
        decreases socketRunning, len - bytesReceived
      {
        var st := skt.Recv(buf, bytesReceived, len - bytesReceived);
        if st == 0 {
          socketRunning := false;
        } else if st == -1 {
          socketRunning := false;
        } else {
          bytesReceived := bytesReceived + st;
        }
      }
      var outcome: SocketStatus;
      if bytesReceived > 0 {
        outcome, n := SktReceptionSuccess, bytesReceived;
      } else if bytesReceived == 0 {
        outcome, n := SktReceptionEnd, -1;
      } else {
        outcome, n := SktReceptionFailure, -1;
      }
      status := outcome;
    }

    /** Offers buf[..len] until all of it is accepted. On success exactly those bytes went
        out; on failure a proper prefix of them did. */
    method Send(len: int, buf: string)
      requires 0 <= len <= |buf|
      modifies this`status, skt`outgoing
      ensures status in {SktSendSuccess, SktSendFailure}
      ensures status == SktSendSuccess ==> skt.outgoing == old(skt.outgoing) + buf[..len]
      ensures status == SktSendFailure ==> exists k :: 0 <= k < len && skt.outgoing == old(skt.outgoing) + buf[..k]
      ensures !skt.lossy ==> status == SktSendSuccess
    {
      var socketRunning := true;
      var bytesSent := 0;
      while socketRunning && bytesSent < len
        invariant 0 <= bytesSent <= len
        invariant skt.outgoing == old(skt.outgoing) + buf[..bytesSent]
        invariant socketRunning || (skt.lossy && bytesSent < len)
        decreases socketRunning, len - bytesSent
      {
        var st := skt.Send(buf[bytesSent..len]);
        if st == 0 {
          socketRunning := false;
        } else if st == -1 {
          socketRunning := false;
        } else {
          assert buf[..bytesSent] + buf[bytesSent..len][..st] == buf[..bytesSent + st];
          bytesSent := bytesSent + st;
        }
      }
      if socketRunning {
        status := SktSendSuccess;
      } else {
        status := SktSendFailure;
      }
    }
  }
}
