/** The records the two programs keep (client.h, server.h) and what travels between them:
    commands of 1 or 4 bytes one way, length-prefixed strings the other (protocol.c). */
module SudokuProtocol {
  import opened Text
  import opened Network
  import opened SudokuGame
  import opened SudokuSocket

  datatype ServerStatus = ServerOk | ServerCommandInvalid | ServerDisconnectedClient

  class ServerRecord {
    var command: char
    var row: int
    var col: int
    var value: int
    var status: ServerStatus

    constructor ()
      ensures status == ServerOk
    {
      command, row, col, value, status := NUL, 0, 0, 0, ServerOk;
    }

    function Received(): Command
      reads this
    {
      if command == 'P' then PutAt(row, col, value) else Plain(command)
    }
  }

  // ---- Commands ----

  /** A command whose fields fit in one byte each. */
  predicate Encodable(c: Command) {
    match c
    case PutAt(r, k, v) => 0 <= r < 256 && 0 <= k < 256 && 0 <= v < 256
    case Plain(op) => op != 'P'
  }

  function Encode(c: Command): (s: string)
    requires Encodable(c)
    ensures |s| > 0
  {
    match c
    case PutAt(r, k, v) => ['P', r as char, k as char, v as char]
    case Plain(op) => [op]
  }

  ghost predicate AllEncodable(cmds: seq<Command>) {
    forall k :: 0 <= k < |cmds| ==> Encodable(cmds[k])
  }

  function EncodeAll(cmds: seq<Command>): string
    requires AllEncodable(cmds)
  {
    if cmds == [] then "" else Encode(cmds[0]) + EncodeAll(cmds[1..])
  }

  /** Reading commands off a byte stream, as repeated protocol_receive_command does. A put
      cut short by the end of the stream yields nothing. */
  function DecodeAll(s: string): seq<Command> {
    if s == "" then []
    else if s[0] != 'P' then [Plain(s[0])] + DecodeAll(s[1..])
    else if |s| < 4 then []
    else [PutAt(s[1] as int, s[2] as int, s[3] as int)] + DecodeAll(s[4..])
  }

  /** The encoding is a prefix code: no separator is needed to read the commands back. */
  lemma {:induction false} DecodeEncode(cmds: seq<Command>)
    requires AllEncodable(cmds)
    ensures DecodeAll(EncodeAll(cmds)) == cmds
  {
    if cmds != [] {
      var first, rest := Encode(cmds[0]), EncodeAll(cmds[1..]);
      assert (first + rest)[|first|..] == rest;
      DecodeEncode(cmds[1..]);
    }
  }

  method SendCommand(socket: Socket, c: Command)
    requires Encodable(c) && !socket.skt.lossy
    modifies socket`status, socket.skt`outgoing
    ensures socket.skt.outgoing == old(socket.skt.outgoing) + Encode(c)
    ensures socket.skt.outgoing == old(socket.skt.outgoing)
      + if c.PutAt? then ['P', c.row as char, c.col as char, c.value as char] else [c.op]
    ensures socket.status == SktSendSuccess
  {
    var aux := if c.PutAt? then 'P' else c.op;
    socket.Send(1, [aux]);
    if aux == 'P' {
      aux := c.row as char;
      socket.Send(1, [aux]);
      aux := c.col as char;
      socket.Send(1, [aux]);
      aux := c.value as char;
      socket.Send(1, [aux]);
    }
  }

  /** One byte into aux[0], which keeps what it had at the end of the stream. */
  method ReceiveByte(socket: Socket, aux: array<char>)
    requires aux.Length > 0 && !socket.skt.lossy
    modifies socket`status, socket.skt`incoming, aux
    ensures old(socket.skt.incoming) == "" ==>
      socket.status == SktReceptionEnd && socket.skt.incoming == "" && aux[0] == old(aux[0])
    ensures old(socket.skt.incoming) != "" ==>
      socket.status == SktReceptionSuccess && aux[0] == old(socket.skt.incoming)[0]
      && socket.skt.incoming == old(socket.skt.incoming)[1..]
  {
    var n := socket.Receive(1, aux);
  }

  /** One command off the stream: its own bytes and no more are consumed. At the end of the
      stream the record keeps what it had. */
  method ReceiveCommand(socket: Socket, command: ServerRecord, ghost next: Command, ghost rest: string)
    requires !socket.skt.lossy
    requires socket.skt.incoming == "" || (Encodable(next) && socket.skt.incoming == Encode(next) + rest)
    modifies socket`status, socket.skt`incoming
    modifies command`command, command`row, command`col, command`value
    ensures old(socket.skt.incoming) == "" ==>
      socket.status == SktReceptionEnd && socket.skt.incoming == "" && command.Received() == old(command.Received())
    ensures old(socket.skt.incoming) != "" ==>
      socket.status == SktReceptionSuccess && socket.skt.incoming == rest && command.Received() == next
  {
    var aux := new char[10](_ => NUL);
    aux[0], aux[1] := '0', '0';
    ReceiveByte(socket, aux);
    if socket.status == SktReceptionSuccess {
      command.command := aux[0];
      if aux[0] == 'P' {
        command.command := aux[0];
        ReceiveByte(socket, aux);
        command.row := aux[0] as int;
        ReceiveByte(socket, aux);
        command.col := aux[0] as int;
        ReceiveByte(socket, aux);
        command.value := aux[0] as int;
      }
    }
  }

  // ---- Length-prefixed strings ----

  function DigitChar(d: int): char
    requires 0 <= d <= 9
  {
    '0' + d as char
  }

  /** printf's %d for a length. */
  function Decimal(n: nat): string {
    if n < 10 then [DigitChar(n)] else Decimal(n / 10) + [DigitChar(n % 10)]
  }

  /** The text formatted for the header: one, two and more digits take different branches,
      and the width of the second format is never given. */
  function HeaderText(len: nat): string {
    if len < 10 then "00" + Decimal(len) else Decimal(len)
  }

  lemma {:induction false} HeaderTextLength(len: nat)
    ensures |HeaderText(len)| >= 2
    ensures len >= 1000 ==> |HeaderText(len)| >= 4
  {
    if len >= 10 {
      DecimalLength(len / 10);
    }
  }

  lemma {:induction false} DecimalLength(n: nat)
    ensures |Decimal(n)| >= 1 && (n >= 10 ==> |Decimal(n)| >= 2) && (n >= 100 ==> |Decimal(n)| >= 3)
    ensures forall c :: c in Decimal(n) ==> '0' <= c <= '9'
  {
    if n >= 10 {
      DecimalLength(n / 10);
    }
  }

  /** The three bytes sent: the text in a four-byte buffer, its NUL included when it is short. */
  function Header(len: nat): (h: string)
    ensures |h| == 3
  {
    HeaderTextLength(len);
    (HeaderText(len) + [NUL])[..3]
  }

  predicate IsSpace(c: char) {
    c == ' ' || '\t' <= c <= '\r'
  }

  function DigitsValue(s: string, acc: nat): nat {
    if s == "" || !('0' <= s[0] <= '9') then acc else DigitsValue(s[1..], 10 * acc + s[0] as int - 48)
  }

  /** The C library's atoi: white space, a sign, digits up to the first other character. */
  function Atoi(s: string): int {
    if s == "" then 0
    else if IsSpace(s[0]) then Atoi(s[1..])
    else if s[0] == '-' then 0 - DigitsValue(s[1..], 0)
    else if s[0] == '+' then DigitsValue(s[1..], 0)
    else DigitsValue(s, 0)
  }

  lemma ThreeDigits(a: char, b: char, c: char)
    requires '0' <= a <= '9' && '0' <= b <= '9' && ('0' <= c <= '9' || c == NUL)
    ensures var two := 10 * (a as int - 48) + b as int - 48;
      Atoi([a, b, c, NUL]) == if c == NUL then two else 10 * two + c as int - 48
  {
    var s := [a, b, c, NUL];
    var x, y := a as int - 48, b as int - 48;
    assert s[1..] == [b, c, NUL] && [b, c, NUL][1..] == [c, NUL] && [c, NUL][1..] == [NUL];
    assert !IsSpace(s[0]) && s[0] != '-' && s[0] != '+';
    assert Atoi(s) == DigitsValue(s, 0) == DigitsValue([b, c, NUL], x) == DigitsValue([c, NUL], 10 * x + y);
    if c != NUL {
      assert DigitsValue([c, NUL], 10 * x + y) == DigitsValue([NUL], 10 * (10 * x + y) + c as int - 48);
    }
  }

  /** The header can be read back exactly when the length has at most three digits. */
  lemma HeaderDecodes(len: nat)
    ensures Atoi(Header(len) + [NUL]) == len <==> len <= 999
  {
    var h := Header(len);
    assert h + [NUL] == [h[0], h[1], h[2], NUL];
    if len < 10 {
      assert h == ['0', '0', DigitChar(len)];
    } else if len < 100 {
      assert Decimal(len / 10) == [DigitChar(len / 10)];
      assert h == [DigitChar(len / 10), DigitChar(len % 10), NUL];
    } else if len <= 999 {
      var tens := len / 10;
      assert Decimal(tens) == Decimal(tens / 10) + [DigitChar(tens % 10)];
      assert Decimal(tens / 10) == [DigitChar(tens / 10)];
      assert h == [DigitChar(tens / 10), DigitChar(tens % 10), DigitChar(len % 10)];
    } else {
      HeaderTextLength(len);
      DecimalLength(len);
      assert h == Decimal(len)[..3];
      assert h[0] in Decimal(len) && h[1] in Decimal(len) && h[2] in Decimal(len);
    }
    ThreeDigits(h[0], h[1], h[2]);
  }

  /** The three bytes themselves: a short length leaves a NUL where a third digit would be. */
  lemma HeaderBytes(len: nat)
    requires len <= 999
    ensures Header(len) ==
      if len < 10 then ['0', '0', (48 + len) as char]
      else if len < 100 then [(48 + len / 10) as char, (48 + len % 10) as char, '\0']
      else [(48 + len / 100) as char, (48 + len / 10 % 10) as char, (48 + len % 10) as char]
  {
    if 10 <= len < 100 {
      assert Decimal(len / 10) == [DigitChar(len / 10)];
    } else if len >= 100 {
      assert Decimal(len / 10) == Decimal(len / 10 / 10) + [DigitChar(len / 10 % 10)];
      assert Decimal(len / 100) == [DigitChar(len / 100)];
    }
  }

  /** What protocol_send_string puts on the stream for a C string. */
  function Frame(m: string): string {
    Header(|m|) + m
  }

  /** The receiver overwrites the last byte of every message with a NUL. */
  function Chop(m: string): string
    requires m != ""
  {
    m[..|m| - 1]
  }

  predicate Sendable(m: string) {
    1 <= |m| <= 999 && NulFree(m)
  }

  method SendString(socket: Socket, command: string)
    requires NulFree(command) && !socket.skt.lossy
    modifies socket`status, socket.skt`outgoing
    ensures socket.skt.outgoing == old(socket.skt.outgoing) + Frame(command)
    ensures var n, out := |command|, old(socket.skt.outgoing);
      && (n < 10 ==> socket.skt.outgoing == out + ['0', '0', (48 + n) as char] + command)
      && (10 <= n < 100 ==> socket.skt.outgoing == out + [(48 + n / 10) as char, (48 + n % 10) as char, '\0'] + command)
    ensures var n, out := |command|, old(socket.skt.outgoing); 100 <= n < 1000 ==>
      socket.skt.outgoing == out + [(48 + n / 100) as char, (48 + n / 10 % 10) as char, (48 + n % 10) as char] + command
    ensures socket.status == SktSendSuccess
  {
    var messageLen: string;
    var len := |command|;
    HeaderTextLength(len);
    if len < 10 {
      messageLen := "00" + Decimal(len);
    } else if len < 100 && len >= 10 {
      messageLen := Decimal(len);
    } else {
      messageLen := Decimal(len);
    }
    messageLen := (messageLen + [NUL])[..3];
    socket.Send(3, messageLen);
    socket.Send(len, command);
    assert messageLen[..3] == messageLen && command[..len] == command;
    if len <= 999 {
      HeaderBytes(len);
    }
  }

  lemma FrameParts(m: string, rest: string)
    ensures (Frame(m) + rest)[..3] == Header(|m|) && (Frame(m) + rest)[3..] == m + rest
    ensures (m + rest)[|m|..] == rest
  {
  }

  /** Receives one framed string and shows it without its last byte; the rest of the stream
      is not touched. An empty message is reported as a failed reception. */
  method ReceiveString(socket: Socket, received: array<char>, ghost m: string, ghost rest: string) returns (shown: string)
    requires !socket.skt.lossy && socket.skt.incoming == Frame(m) + rest
    requires |m| <= 999 && |m| <= received.Length && NulFree(m)
    modifies socket`status, socket.skt`incoming, received
    ensures socket.skt.incoming == rest
    ensures m == "" ==> socket.status == SktReceptionFailure && shown == "" && received[..] == old(received[..])
    ensures m != "" ==> socket.status == SktReceptionSuccess && shown == Chop(m)
    ensures m != "" ==> forall p :: 0 <= p < received.Length ==>
      received[p] == if p < |m| - 1 then m[p] else if p == |m| - 1 then NUL else old(received[p])
  {
    shown := "";
    var header := new char[4](_ => NUL);
    var n := socket.Receive(3, header);
    FrameParts(m, rest);
    assert header[..] == Header(|m|) + [NUL];
    HeaderDecodes(|m|);
    var len := Atoi(header[..]);
    if len == 0 {
      socket.status := SktReceptionFailure;
    } else {
      n := socket.Receive(len, received);
      received[len - 1] := NUL;
      CStrOf(received[..], Chop(m));
      shown := CStr(received[..]);
    }
  }
}
