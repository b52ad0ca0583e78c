/** The client process: splitting a typed line with strtok_r, the grammar of commands, and
    the loop that plays a whole script (client.c and the client half of sudoku.c). */
module SudokuClient {
  import opened Text
  import opened Network
  import opened SudokuGame
  import opened SudokuSocket
  import opened SudokuProtocol
  import opened SudokuServer

  const MAX_INPUT := 20
  const RECEIVED_BOARD := 800

  /** A line as the keyboard gives it: its only newline is at the end and it fits the buffer. */
  predicate IsLine(s: string) {
    0 < |s| < MAX_INPUT && NulFree(s) && s[|s| - 1] == '\n' && '\n' !in s[..|s| - 1]
  }

  // ---- Tokens ----

  function SkipSpaces(s: string): (r: string)
    ensures |r| <= |s|
  {
    if s != "" && s[0] == ' ' then SkipSpaces(s[1..]) else s
  }

  /** The text up to the first space. */
  function Word(s: string): (w: string)
    ensures |w| <= |s|
  {
    if s == "" || s[0] == ' ' then "" else [s[0]] + Word(s[1..])
  }

  lemma {:induction false} SkipSpacesIsSuffix(s: string)
    ensures var r := SkipSpaces(s); s[|s| - |r|..] == r && (r != "" ==> r[0] != ' ')
  {
    if s != "" && s[0] == ' ' {
      SkipSpacesIsSuffix(s[1..]);
    }
  }

  lemma {:induction false} WordIsPrefix(s: string)
    ensures var w := Word(s); s[..|w|] == w && ' ' !in w && (|w| < |s| ==> s[|w|] == ' ')
  {
    if s != "" && s[0] != ' ' {
      WordIsPrefix(s[1..]);
    }
  }

  /** The text after the first space. */
  function AfterWord(s: string): string {
    if |Word(s)| == |s| then "" else s[|Word(s)| + 1..]
  }

  /** All the space-separated tokens of a text. */
  function Tokens(s: string): seq<string>
    decreases |s|
  {
    var t := SkipSpaces(s);
    if t == "" then [] else [Word(t)] + Tokens(AfterWord(t))
  }

  predicate EndsInNewline(s: string) {
    s != "" && s[|s| - 1] == '\n'
  }

  lemma {:induction false} NewlineSurvives(s: string)
    requires EndsInNewline(s)
    ensures EndsInNewline(SkipSpaces(s))
  {
    if s[0] == ' ' {
      NewlineSurvives(s[1..]);
    }
  }

  /** After a token without a newline there is more text, down to the newline. */
  lemma NewlineAhead(t: string)
    requires EndsInNewline(t) && '\n' !in Word(t)
    ensures EndsInNewline(AfterWord(t))
  {
    WordIsPrefix(t);
    if |Word(t)| == |t| && '\n' !in t {
      assert false;
    }
  }

  /** A text that ends in a newline has a token, and when that token does not hold the
      newline the rest of the text ends in one too. */
  lemma TokenAhead(s: string)
    requires EndsInNewline(s)
    ensures Tokens(s) != []
    ensures '\n' !in Tokens(s)[0] ==> EndsInNewline(AfterWord(SkipSpaces(s)))
  {
    NewlineSurvives(s);
    if '\n' !in Word(SkipSpaces(s)) {
      NewlineAhead(SkipSpaces(s));
    }
  }

  /** A buffer holds the C string s from offset p. */
  ghost predicate Holds(buf: string, p: int, s: string) {
    0 <= p && p + |s| < |buf| && NulFree(s) && (forall q :: 0 <= q < |s| ==> buf[p + q] == s[q]) && buf[p + |s|] == NUL
  }

  lemma HoldsRest(buf: string, p: int, s: string, n: int)
    requires Holds(buf, p, s) && 0 <= n <= |s|
    ensures Holds(buf, p + n, s[n..])
  {
    forall q | 0 <= q < |s| - n ensures buf[p + n + q] == s[n..][q] {
      assert buf[p + (n + q)] == s[n + q];
    }
  }

  /** strspn: the delimiters ahead are skipped. */
  method SkipDelimiters(buf: array<char>, from: nat, ghost s: string) returns (p: nat)
    requires Holds(buf[..], from, s)
    ensures Holds(buf[..], p, SkipSpaces(s))
  {
    ghost var t := s;
    p := from;
    assert NulFree(t) && (t == "" || buf[..][p + 0] == t[0]);
    while buf[p] == ' '
      invariant Holds(buf[..], p, t) && SkipSpaces(t) == SkipSpaces(s)
      invariant p < buf.Length && buf[p] == if t == "" then NUL else t[0]
      decreases |t|
    {
      HoldsRest(buf[..], p, t, 1);
      t := t[1..];
      p := p + 1;
      assert t == "" || buf[..][p + 0] == t[0];
    }
  }

  /** strcspn: the next delimiter, or the end of the string. */
  method FindDelimiter(buf: array<char>, from: nat, ghost s: string) returns (p: nat)
    requires Holds(buf[..], from, s)
    ensures p == from + |Word(s)|
  {
    p := from;
    ghost var t := s;
    assert NulFree(t) && (t == "" || buf[..][p + 0] == t[0]);
    while buf[p] != ' ' && buf[p] != NUL
      invariant Holds(buf[..], p, t) && p - from + |Word(t)| == |Word(s)|
      invariant p < buf.Length && buf[p] == if t == "" then NUL else t[0]
      decreases |t|
    {
      HoldsRest(buf[..], p, t, 1);
      t := t[1..];
      p := p + 1;
      assert t == "" || buf[..][p + 0] == t[0];
    }
  }

  /** Overwriting a character leaves two strings: what was before it and what is after. */
  lemma CutAt(buf: string, p: int, t: string, n: int)
    requires Holds(buf, p, t) && 0 <= n < |t|
    ensures Holds(buf[p + n := NUL], p, t[..n]) && Holds(buf[p + n := NUL], p + n + 1, t[n + 1..])
    ensures buf[p + n] == t[n]
  {
    var cut, rest := buf[p + n := NUL], t[n + 1..];
    forall q | 0 <= q < |rest| ensures cut[p + n + 1 + q] == rest[q] {
      assert buf[p + (n + 1 + q)] == t[n + 1 + q];
    }
  }

  /** Overwriting the space after the first word leaves the word and the rest. */
  lemma CutAfterWord(buf: string, p: int, t: string)
    requires Holds(buf, p, t)
    ensures var n := |Word(t)|;
      && buf[p + n] == (if n == |t| then NUL else ' ')
      && (n == |t| ==> Holds(buf, p, Word(t)) && Holds(buf, p + n, AfterWord(t)))
      && (n < |t| ==> Holds(buf[p + n := NUL], p, Word(t)) && Holds(buf[p + n := NUL], p + n + 1, AfterWord(t)))
  {
    var n := |Word(t)|;
    WordIsPrefix(t);
    if n < |t| {
      CutAt(buf, p, t, n);
    }
  }

  /** strtok_r with a space for delimiter: -1 stands for NULL, and the space that ends the
      token is overwritten by a NUL. */
  method StrtokR(buf: array<char>, from: nat, ghost s: string) returns (tok: int, save: nat)
    requires Holds(buf[..], from, s)
    modifies buf
    ensures Tokens(s) == [] ==> tok == -1 && Holds(buf[..], save, "")
    ensures Tokens(s) != [] ==>
      Holds(buf[..], tok, Tokens(s)[0]) && Holds(buf[..], save, AfterWord(SkipSpaces(s)))
  {
    var p := SkipDelimiters(buf, from, s);
    ghost var t := SkipSpaces(s);
    assert t == "" || buf[..][p + 0] == t[0];
    if buf[p] == NUL {
      tok, save := -1, p;
    } else {
      tok := p;
      p := FindDelimiter(buf, tok, t);
      ghost var before := buf[..];
      CutAfterWord(before, tok, t);
      if buf[p] == NUL {
        save := p;
      } else {
        buf[p] := NUL;
        assert buf[..] == before[p := NUL];
        save := p + 1;
      }
    }
  }

  /** The C string a pointer into the buffer points at. */
  method ReadString(buf: array<char>, p: nat, ghost s: string) returns (r: string)
    requires Holds(buf[..], p, s)
    ensures r == s
  {
    forall q | 0 <= q < |s| ensures buf[p..][q] == s[q] {
      assert buf[..][p + q] == s[q];
    }
    CStrOf(buf[p..], s);
    r := CStr(buf[p..]);
  }

  // ---- The grammar ----

  datatype Typed = Valid(c: Command) | Exit | BadIndex | Rejected | NullToken

  predicate IsDigit(c: char) {
    '0' <= c <= '9'
  }

  function DigitOf(c: char): int {
    c as int - 48
  }

  predicate IsPlace(w: string) {
    |w| == 4 && IsDigit(w[0]) && w[0] != '0' && w[1] == ',' && IsDigit(w[2]) && w[2] != '0' && w[3] == '\n'
  }

  /** The tokens of a put, the word put included. */
  function ParsePut(w: seq<string>): Typed
    requires w != []
  {
    if |w| == 1 then NullToken
    else if |w[1]| == 1 && IsDigit(w[1][0]) then
      if |w| == 2 then NullToken
      else if w[2] == "in" then
        if |w| == 3 then NullToken
        else if IsPlace(w[3]) then Valid(PutAt(DigitOf(w[3][0]), DigitOf(w[3][2]), DigitOf(w[1][0])))
        else BadIndex
      else Rejected
    else Rejected
  }

  /** What a line means to the client. Index errors leave the status alone, other errors
      make the client read again, and a missing token would be a null pointer. */
  function Parse(line: string): Typed {
    var w := Tokens(line);
    if w == [] then NullToken
    else if w[0] == "put" then ParsePut(w)
    else if line == "verify\n" then Valid(Plain('V'))
    else if line == "get\n" then Valid(Plain('G'))
    else if line == "reset\n" then Valid(Plain('R'))
    else if line == "exit\n" then Exit
    else if line[0] == '\U{00FF}' then Exit // the octet that a signed char compares equal to EOF
    else Rejected
  }

  datatype ClientStatus =
    | ClientOk | ClientCommandValid | ClientCommandInvalid | ClientEndgame
    | ClientConnected | ClientEofReached | ClientInvalidIndex

  class ClientRecord {
    var command: char
    var row: int
    var col: int
    var value: int
    var status: ClientStatus

    constructor ()
      ensures status == ClientConnected
    {
      command, row, col, value, status := 'X', 0, 0, 0, ClientConnected;
    }

    function Requested(): Command
      reads this
    {
      if command == 'P' then PutAt(row, col, value) else Plain(command)
    }
  }

  /** The text left after n tokens. */
  function Rest(line: string, n: nat): string {
    if n == 0 then line else AfterWord(SkipSpaces(Rest(line, n - 1)))
  }

  /** While no newline has been read there is another token. */
  lemma {:induction false} RestTokens(line: string, n: nat)
    requires EndsInNewline(line)
    requires n <= |Tokens(line)| && forall k :: 0 <= k < n ==> '\n' !in Tokens(line)[k]
    ensures EndsInNewline(Rest(line, n)) && Tokens(Rest(line, n)) == Tokens(line)[n..] && n < |Tokens(line)|
  {
    if n > 0 {
      RestTokens(line, n - 1);
      TokenAhead(Rest(line, n - 1));
      assert Tokens(line)[n - 1..][1..] == Tokens(line)[n..];
    }
    TokenAhead(Rest(line, n));
  }

  /** No tokenizer call ever returns NULL on a line that ends in a newline. */
  lemma NeverNull(line: string)
    requires EndsInNewline(line)
    ensures Parse(line) != NullToken
  {
    hide Tokens, Rest;
    RestTokens(line, 0);
    var w := Tokens(line);
    if w[0] == "put" {
      RestTokens(line, 1);
      if |w[1]| == 1 && IsDigit(w[1][0]) {
        RestTokens(line, 2);
        if w[2] == "in" {
          RestTokens(line, 3);
        }
      }
    }
  }

  /** The next token of the line, after n of them. */
  method NextToken(aux: array<char>, from: nat, ghost line: string, ghost n: nat) returns (word: string, save: nat)
    requires EndsInNewline(line) && Holds(aux[..], from, Rest(line, n))
    requires n <= |Tokens(line)| && forall k :: 0 <= k < n ==> '\n' !in Tokens(line)[k]
    modifies aux
    ensures n < |Tokens(line)| && word == Tokens(line)[n]
    ensures Holds(aux[..], save, Rest(line, n + 1))
  {
    RestTokens(line, n);
    var partial: int;
    partial, save := StrtokR(aux, from, Rest(line, n));
    word := ReadString(aux, partial, Tokens(line)[n]);
  }

  /** What processing did to the client's record. */
  ghost predicate Took(self: ClientRecord, typed: Typed, before: ClientStatus, letter: char)
    reads self
  {
    match typed
    case Valid(c) => self.status == ClientCommandValid && self.Requested() == c
    case Exit => self.status == ClientCommandValid && self.command == 'E'
    case BadIndex => self.status == before && self.command == 'P'
    case Rejected => self.status == ClientCommandInvalid && self.command in {letter, 'P'}
    case NullToken => false
  }

  /** The part of the line after the word put. */
  method PutProcess(self: ClientRecord, aux: array<char>, from: nat, ghost line: string)
    requires EndsInNewline(line) && Tokens(line) != [] && '\n' !in Tokens(line)[0]
    requires Holds(aux[..], from, Rest(line, 1))
    modifies self, aux
    ensures Took(self, ParsePut(Tokens(line)), old(self.status), old(self.command))
  {
    hide Tokens, Rest, Holds;
    self.command := 'P';
    var word, rest := NextToken(aux, from, line, 1);
    if |word| == 1 && IsDigit(word[0]) {
      self.value := DigitOf(word[0]);
      word, rest := NextToken(aux, rest, line, 2);
      if word == "in" {
        word, rest := NextToken(aux, rest, line, 3);
        if IsPlace(word) {
          self.row := DigitOf(word[0]);
          self.col := DigitOf(word[2]);
          self.status := ClientCommandValid;
        }
      } else {
        self.status := ClientCommandInvalid;
      }
    } else {
      self.status := ClientCommandInvalid;
    }
  }

  method CommandProcess(self: ClientRecord, command: string)
    requires self.status != ClientEofReached ==> IsLine(command)
    modifies self
    ensures old(self.status) == ClientEofReached ==> self.status == ClientEofReached && self.command == old(self.command)
    ensures old(self.status) != ClientEofReached ==> Took(self, Parse(command), old(self.status), old(self.command))
    ensures old(self.status) != ClientEofReached ==> TookWords(self, command, old(self.status), old(self.command))
  {
    hide TookWords, Tokens, ParsePut;
    var aux := new char[MAX_INPUT](_ => '\U{0001}');
    if self.status != ClientEofReached {
      forall k | 0 <= k < |command| {
        aux[k] := command[k];
      }
      aux[|command|] := NUL;
      assert Holds(aux[..], 0, command);
      var word, rest := NextToken(aux, 0, command, 0);
      if word == "put" {
        PutProcess(self, aux, rest, command);
      } else if command == "verify\n" {
        self.command, self.status := 'V', ClientCommandValid;
      } else if command == "get\n" {
        self.command, self.status := 'G', ClientCommandValid;
      } else if command == "reset\n" {
        self.command, self.status := 'R', ClientCommandValid;
      } else if command == "exit\n" {
        self.command, self.status := 'E', ClientCommandValid;
      } else if command[0] == '\U{00FF}' {
        self.command, self.status := 'E', ClientCommandValid;
      } else {
        self.status := ClientCommandInvalid;
      }
      TookInWords(self, command, old(self.status), old(self.command));
    }
  }

  /** The newline at the end of a text is its only one. */
  ghost predicate NewlineLast(s: string) {
    EndsInNewline(s) && forall q :: 0 <= q < |s| - 1 ==> s[q] != '\n'
  }

  lemma LineNewlineLast(line: string)
    requires IsLine(line)
    ensures NewlineLast(line)
  {
    assert forall q :: 0 <= q < |line| - 1 ==> line[q] == line[..|line| - 1][q];
  }

  lemma SuffixNewlineLast(s: string, n: int)
    requires NewlineLast(s) && 0 <= n < |s|
    ensures NewlineLast(s[n..])
  {
  }

  /** A word with the newline is all that is left of the text. */
  lemma WordWithNewline(t: string)
    requires NewlineLast(t) && '\n' in Word(t)
    ensures AfterWord(t) == ""
  {
    WordIsPrefix(t);
    var q :| 0 <= q < |Word(t)| && Word(t)[q] == '\n';
    assert t[..|Word(t)|][q] == t[q];
  }

  /** Only the last token of a line can hold its newline. */
  lemma {:induction false} NewlineInLastToken(s: string, k: int)
    requires NewlineLast(s)
    requires 0 <= k < |Tokens(s)| && '\n' in Tokens(s)[k]
    ensures k == |Tokens(s)| - 1
    decreases |s|
  {
    hide NewlineLast, EndsInNewline, AfterWord, SkipSpaces, Word;
    var t := SkipSpaces(s);
    SkipSpacesIsSuffix(s);
    SuffixNewlineLast(s, |s| - |t|);
    if '\n' in Word(t) {
      WordWithNewline(t);
      NoTokens();
    } else {
      RestNewlineLast(t);
      NewlineInLastToken(AfterWord(t), k - 1);
    }
  }

  lemma NoTokens()
    ensures Tokens("") == []
  {
  }

  lemma RestNewlineLast(t: string)
    requires NewlineLast(t) && '\n' !in Word(t)
    ensures NewlineLast(AfterWord(t)) && |AfterWord(t)| < |t|
  {
    NewlineAhead(t);
    SuffixNewlineLast(t, |Word(t)| + 1);
  }

  /** A line is a put of v at (r, c) exactly when its tokens are put, a digit, in, and
      "r,c" with the newline. */
  lemma PutGrammar(line: string, r: int, c: int, v: int)
    requires IsLine(line)
    ensures Parse(line) == Valid(PutAt(r, c, v)) <==>
      1 <= r <= 9 && 1 <= c <= 9 && 0 <= v <= 9
      && Tokens(line) == ["put", [DigitChar(v)], "in", [DigitChar(r), ',', DigitChar(c), '\n']]
  {
    var w := Tokens(line);
    if Parse(line) == Valid(PutAt(r, c, v)) {
      assert w[3][3] in w[3];
      LineNewlineLast(line);
      NewlineInLastToken(line, 3);
      assert w[1] == [DigitChar(v)];
      assert w[3] == [DigitChar(r), ',', DigitChar(c), '\n'];
    }
  }

  /** The tokens of a put as the player types them. */
  predicate IsPut(w: seq<string>) {
    && |w| == 4 && w[0] == "put"
    && |w[1]| == 1 && '0' <= w[1][0] <= '9'
    && w[2] == "in"
    && |w[3]| == 4 && '1' <= w[3][0] <= '9' && w[3][1] == ',' && '1' <= w[3][2] <= '9' && w[3][3] == '\n'
  }

  /** A put whose only fault is in the place: the client complains but goes on as if nothing
      had been typed. */
  predicate HasBadIndex(w: seq<string>) {
    |w| >= 4 && w[0] == "put" && |w[1]| == 1 && '0' <= w[1][0] <= '9' && w[2] == "in" && !IsPut(w)
  }

  /** Lines that end the game: exit, or the octet that compares equal to EOF in front. */
  predicate Leaves(line: string) {
    line == "exit\n" || (line != "" && line[0] == '\U{00FF}')
  }

  /** The client's record after a line, said of the line's own words: each command word gives
      its letter, a put its letter and its three digits, and any other line is refused. */
  ghost predicate TookWords(self: ClientRecord, line: string, before: ClientStatus, letter: char)
    reads self
  {
    var w := Tokens(line);
    if line == "verify\n" then self.status == ClientCommandValid && self.command == 'V'
    else if line == "get\n" then self.status == ClientCommandValid && self.command == 'G'
    else if line == "reset\n" then self.status == ClientCommandValid && self.command == 'R'
    else if Leaves(line) then self.status == ClientCommandValid && self.command == 'E'
    else if IsPut(w) then
      && self.status == ClientCommandValid && self.command == 'P' && self.value == w[1][0] as int - 48
      && self.row == w[3][0] as int - 48 && self.col == w[3][2] as int - 48
    else if HasBadIndex(w) then self.status == before && self.command == 'P'
    else self.status == ClientCommandInvalid && self.command in {letter, 'P'}
  }

  lemma TookInWords(self: ClientRecord, line: string, before: ClientStatus, letter: char)
    requires IsLine(line) && Took(self, Parse(line), before, letter)
    ensures TookWords(self, line, before, letter)
  {
    hide Tokens, IsPut, HasBadIndex, Leaves, Parse;
    PlainWords(line);
    PutWords(line);
    if line !in {"verify\n", "get\n", "reset\n"} && !Leaves(line) && !IsPut(Tokens(line)) && !HasBadIndex(Tokens(line)) {
      OtherWords(line);
    }
  }

  /** What the words without arguments mean. */
  lemma PlainWords(line: string)
    requires IsLine(line)
    ensures line == "verify\n" ==> Parse(line) == Valid(Plain('V'))
    ensures line == "get\n" ==> Parse(line) == Valid(Plain('G'))
    ensures line == "reset\n" ==> Parse(line) == Valid(Plain('R'))
    ensures Leaves(line) <==> Parse(line) == Exit
    ensures line in {"verify\n", "get\n", "reset\n"} || Leaves(line) ==> Tokens(line) != [] && Tokens(line)[0] != "put"
  {
    hide Tokens, Word, SkipSpaces;
    TokenAhead(line);
    if line[0] != ' ' {
      FirstToken(line);
    }
  }

  /** The first token of a text starts like the text, unless that starts with a space. */
  lemma FirstToken(s: string)
    requires s != "" && s[0] != ' '
    ensures Tokens(s) != [] && Tokens(s)[0] != "" && Tokens(s)[0][0] == s[0]
  {
  }

  /** What the words of a put mean, and that nothing else is a put. */
  lemma PutWords(line: string)
    requires IsLine(line)
    ensures IsPut(Tokens(line)) ==> var w := Tokens(line);
      Parse(line) == Valid(PutAt(w[3][0] as int - 48, w[3][2] as int - 48, w[1][0] as int - 48))
    ensures Parse(line).Valid? && Parse(line).c.PutAt? ==> IsPut(Tokens(line))
    ensures HasBadIndex(Tokens(line)) <==> Parse(line) == BadIndex
  {
    hide Tokens;
    var w := Tokens(line);
    if |w| >= 4 && |w[3]| == 4 && w[3][3] == '\n' {
      assert w[3][3] in w[3];
      LineNewlineLast(line);
      NewlineInLastToken(line, 3);
    }
  }

  /** Every other line is rejected. */
  lemma OtherWords(line: string)
    requires IsLine(line) && line !in {"verify\n", "get\n", "reset\n"} && !Leaves(line)
    requires !IsPut(Tokens(line)) && !HasBadIndex(Tokens(line))
    ensures Parse(line) == Rejected
  {
    hide Tokens, IsPut, HasBadIndex;
    NeverNull(line);
    PutWords(line);
  }

  /** How a legal put is typed. */
  function Printed(r: int, c: int, v: int): string
    requires Legal(PutAt(r, c, v))
  {
    "put " + [DigitChar(v)] + " in " + [DigitChar(r), ',', DigitChar(c), '\n']
  }

  lemma WordThenSpace(w: string, rest: string)
    requires w != "" && ' ' !in w
    ensures Tokens(w + [' '] + rest) == [w] + Tokens(rest)
  {
    var s := w + [' '] + rest;
    assert s[0] == w[0] && w[0] in w;
    assert SkipSpaces(s) == s;
    WordOf(w, [' '] + rest);
    assert s == w + ([' '] + rest);
    assert AfterWord(s) == rest;
  }

  lemma {:induction false} WordOf(w: string, rest: string)
    requires ' ' !in w && (rest == "" || rest[0] == ' ')
    ensures Word(w + rest) == w
  {
    if w == "" {
      assert w + rest == rest;
    } else {
      assert w[0] in w;
      assert (w + rest)[1..] == w[1..] + rest;
      WordOf(w[1..], rest);
    }
  }

  lemma PrintedTokens(r: int, c: int, v: int)
    requires Legal(PutAt(r, c, v))
    ensures Tokens(Printed(r, c, v)) == ["put", [DigitChar(v)], "in", [DigitChar(r), ',', DigitChar(c), '\n']]
  {
    var place := [DigitChar(r), ',', DigitChar(c), '\n'];
    var digit := [DigitChar(v)];
    var afterDigit := "in" + [' '] + place;
    var afterPut := digit + [' '] + afterDigit;
    assert Printed(r, c, v) == "put" + [' '] + afterPut;
    WordThenSpace("put", afterPut);
    WordThenSpace(digit, afterDigit);
    WordThenSpace("in", place);
    LastToken(place);
  }

  lemma LastToken(w: string)
    requires w != "" && ' ' !in w
    ensures Tokens(w) == [w]
  {
    assert w[0] in w;
    WordOf(w, "");
    assert w + "" == w;
  }

  /** Typing a legal put asks for exactly that put. */
  lemma ParsePrinted(r: int, c: int, v: int)
    requires Legal(PutAt(r, c, v))
    ensures IsLine(Printed(r, c, v)) && Parse(Printed(r, c, v)) == Valid(PutAt(r, c, v))
  {
    PrintedTokens(r, c, v);
    PutGrammar(Printed(r, c, v), r, c, v);
  }

  /** Everything the client sends is legal for the server, and exit is never sent. */
  lemma ParseIsLegal(line: string)
    ensures Parse(line).Valid? ==> Legal(Parse(line).c) && Encodable(Parse(line).c) && Parse(line).c != Plain('E')
  {
  }

  // ---- A whole script ----

  ghost predicate AllLines(lines: seq<string>) {
    forall k :: 0 <= k < |lines| ==> IsLine(lines[k])
  }

  /** The commands a script of typed lines sends: nothing for a rejected line, and nothing
      after an exit. */
  function Script(lines: seq<string>): (cmds: seq<Command>)
    ensures AllLegal(cmds) && AllEncodable(cmds)
  {
    if lines == [] then []
    else
      ParseIsLegal(lines[0]);
      match Parse(lines[0])
      case Valid(c) => [c] + Script(lines[1..])
      case Exit => []
      case _ => Script(lines[1..])
  }

  function Chopped(ms: seq<string>): seq<string> {
    seq(|ms|, k requires 0 <= k < |ms| => if ms[k] == "" then "" else Chop(ms[k]))
  }

  ghost predicate AllSendable(ms: seq<string>) {
    forall k :: 0 <= k < |ms| ==> Sendable(ms[k])
  }

  lemma {:induction false} EncodeAllSnoc(cmds: seq<Command>, c: Command)
    requires AllEncodable(cmds) && Encodable(c)
    ensures AllEncodable(cmds + [c]) && EncodeAll(cmds + [c]) == EncodeAll(cmds) + Encode(c)
  {
    if cmds == [] {
      assert EncodeAll([c]) == Encode(c);
    } else {
      assert (cmds + [c])[1..] == cmds[1..] + [c];
      EncodeAllSnoc(cmds[1..], c);
    }
  }

  /** Bookkeeping of one exchange. */
  lemma RoundStep(all: seq<Command>, replies: seq<string>, n: nat)
    requires AllEncodable(all) && n < |all| == |replies| && AllSendable(replies)
    ensures EncodeAll(all[..n + 1]) == EncodeAll(all[..n]) + Encode(all[n])
    ensures Concat(Frames(replies[n..])) == Frame(replies[n]) + Concat(Frames(replies[n + 1..]))
    ensures Chopped(replies[..n + 1]) == Chopped(replies[..n]) + [Chop(replies[n])]
  {
    assert all[..n + 1] == all[..n] + [all[n]];
    EncodeAllSnoc(all[..n], all[n]);
    assert replies[n..][1..] == replies[n + 1..];
    assert Frames(replies[n..])[1..] == Frames(replies[n + 1..]);
    assert Frames(replies[n..])[0] == Frame(replies[n]);
  }

  /** n commands are out and n replies were read and shown. */
  ghost predicate AfterRounds(skt: Connection, shown: seq<string>, all: seq<Command>, replies: seq<string>, n: nat)
    reads skt
  {
    && AllEncodable(all) && AllSendable(replies) && n <= |all| == |replies|
    && skt.outgoing == EncodeAll(all[..n])
    && skt.incoming == Concat(Frames(replies[n..]))
    && shown == Chopped(replies[..n])
  }

  /** The command goes out and one framed reply comes back. */
  method Exchange(client: ClientRecord, socket: Socket, received: array<char>, shown: seq<string>,
                  ghost all: seq<Command>, ghost replies: seq<string>, ghost n: nat) returns (more: seq<string>)
    requires !socket.skt.lossy && received.Length == RECEIVED_BOARD
    requires AfterRounds(socket.skt, shown, all, replies, n) && n < |all| && client.Requested() == all[n]
    requires |replies[n]| <= RECEIVED_BOARD
    modifies socket`status, socket.skt, received
    ensures AfterRounds(socket.skt, more, all, replies, n + 1)
  {
    RoundStep(all, replies, n);
    SendCommand(socket, client.Requested());
    var s := ReceiveString(socket, received, replies[n], Concat(Frames(replies[n + 1..])));
    more := shown + [s];
  }

  /** Reads lines until one is not rejected. */
  method ReadCommand(client: ClientRecord, lines: seq<string>, from: nat) returns (next: nat)
    requires AllLines(lines) && from <= |lines| && client.command != 'E'
    modifies client
    ensures from <= next <= |lines|
    ensures client.status == ClientEofReached ==>
      next == |lines| && Script(lines[from..]) == [] && client.command != 'E'
    ensures client.status == ClientCommandValid && client.command == 'E' ==> Script(lines[from..]) == []
    ensures client.status == ClientCommandValid && client.command != 'E' ==>
      from < next && Encodable(client.Requested()) && Script(lines[from..]) == [client.Requested()] + Script(lines[next..])
    ensures client.status == ClientOk ==>
      from < next && client.command != 'E' && Script(lines[from..]) == Script(lines[next..])
    ensures client.status in {ClientEofReached, ClientCommandValid, ClientOk}
  {
    hide Parse, Encode, EncodeAll;
    next := from;
    client.status := ClientCommandInvalid;
    while client.status == ClientCommandInvalid
      invariant from <= next <= |lines| && client.command != 'E'
      invariant Script(lines[from..]) == Script(lines[next..])
      invariant client.status == ClientCommandInvalid
      decreases |lines| - next
    {
      client.status := ClientOk;
      if next == |lines| {
        client.status := ClientEofReached;
        CommandProcess(client, "");
        assert lines[next..] == [];
        return;
      }
      ghost var todo := lines[next..];
      assert todo[0] == lines[next] && todo[1..] == lines[next + 1..];
      CommandProcess(client, lines[next]);
      ParseIsLegal(lines[next]);
      next := next + 1;
      if client.status != ClientCommandInvalid {
        return;
      }
    }
  }

  /** The client loop: whatever the replies are, the script's commands go out in order and
      each of them is paired with one reply, shown without its last byte. */
  method Play(client: ClientRecord, socket: Socket, lines: seq<string>, ghost replies: seq<string>)
    returns (status: SudokuStatus, shown: seq<string>)
    requires AllLines(lines) && client.status == ClientConnected && !socket.skt.lossy
    requires AllSendable(replies) && |replies| == |Script(lines)|
    requires forall k :: 0 <= k < |replies| ==> |replies[k]| <= RECEIVED_BOARD
    requires socket.skt.incoming == Concat(Frames(replies)) && socket.skt.outgoing == ""
    modifies client, socket, socket.skt
    ensures status == SudokuEndgame && client.status == ClientEndgame && socket.status == SktShutdown
    ensures socket.skt.outgoing == EncodeAll(Script(lines)) && socket.skt.incoming == ""
    ensures shown == Chopped(replies)
  {
    status, shown := SudokuOk, [];
    var received := new char[RECEIVED_BOARD](_ => NUL);
    client.command := 'X';
    var next := 0;
    ghost var n := 0;
    ghost var all := Script(lines);
    assert lines[0..] == lines && all[0..] == all && replies[0..] == replies;
    while client.status != ClientEndgame
      invariant 0 <= next <= |lines| && 0 <= n <= |all|
      invariant client.status != ClientEndgame ==> client.command != 'E' && Script(lines[next..]) == all[n..]
      invariant client.status == ClientEndgame ==> n == |all| && status == SudokuEndgame && socket.status == SktShutdown
      invariant AfterRounds(socket.skt, shown, all, replies, n)
      decreases client.status != ClientEndgame, |lines| - next
    {
      next := ReadCommand(client, lines, next);
      if client.command == 'E' || client.status == ClientEofReached {
        client.status := ClientEndgame;
        status := SudokuEndgame;
        socket.status := SktShutdown;
      }
      if client.status == ClientCommandValid {
        assert all[n] == all[n..][0] && all[n..][1..] == all[n + 1..];
        shown := Exchange(client, socket, received, shown, all, replies, n);
        n := n + 1;
      }
    }
    assert all[..n] == all && replies[..n] == replies && replies[n..] == [];
  }
}
