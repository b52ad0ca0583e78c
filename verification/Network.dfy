/** One end of a connected stream socket, as the kernel shows it to a process. */
module Network {

  class Connection {
    /** The bytes that will arrive before the end of the stream. */
    var incoming: string
    /** The bytes the kernel has accepted for sending. */
    var outgoing: string
    /** Whether a call may report an error. */
    const lossy: bool

    constructor (incoming: string, lossy: bool)
      ensures this.incoming == incoming && outgoing == "" && this.lossy == lossy
    {
      this.incoming, outgoing, this.lossy := incoming, "", lossy;
    }

    /** recv into buf[off..off+max]: -1 on error, 0 at the end of the stream, otherwise any
        count from 1 to max. */
    method Recv(buf: array<char>, off: nat, max: nat) returns (st: int)
      requires off + max <= buf.Length && 0 < max
      modifies this`incoming, buf
      ensures st == -1 ==> lossy
      ensures st == 0 ==> old(incoming) == ""
      ensures -1 <= st <= max && st <= |old(incoming)|
      ensures incoming == old(incoming)[if st < 0 then 0 else st..]
      ensures forall p :: 0 <= p < buf.Length ==> buf[p] == if off <= p < off + st then old(incoming)[p - off] else old(buf[p])
    {
      var error: bool := *;
      if lossy && error {
        st := -1;
      } else if incoming == "" {
        st := 0;
      } else {
        st :| 1 <= st <= max && st <= |incoming|;
        var data := incoming[..st];
        forall k | 0 <= k < st {
          buf[off + k] := data[k];
        }
        incoming := incoming[st..];
      }
    }

    /** send of data: -1 or 0 when the connection is broken, otherwise any count from 1 up. */
    method Send(data: string) returns (st: int)
      requires data != ""
      modifies this`outgoing
      ensures -1 <= st <= |data|
      ensures st <= 0 ==> lossy
      ensures outgoing == old(outgoing) + data[..if st < 0 then 0 else st]
    {
      var error, closed: bool := *, *;
      if lossy && error {
        st := -1;
      } else if lossy && closed {
        st := 0;
      } else {
        st :| 1 <= st <= |data|;
        outgoing := outgoing + data[..st];
      }
    }
  }

  function Min(a: int, b: int): int {
    if a < b then a else b
  }
}
