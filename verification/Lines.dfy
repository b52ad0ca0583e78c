/** Text lines: strings whose first newline is their last character. */
module Lines {
  import opened Text

  /** The position of the first newline, or the length when there is none. */
  function LineEnd(s: string): nat {
    Find(s, '\n')
  }

  predicate IsLine(s: string) {
    s != "" && LineEnd(s) == |s| - 1
  }

  predicate NoNewline(s: string) {
    LineEnd(s) == |s|
  }

  ghost predicate AllLines(lines: seq<string>) {
    forall k :: 0 <= k < |lines| ==> IsLine(lines[k])
  }

  /** A text without newlines becomes a line by adding one. */
  lemma EndLine(s: string)
    requires NoNewline(s)
    ensures IsLine(s + ['\n'])
  {
    FindAppend(s, ['\n'], '\n');
  }

  lemma JoinNoNewline(s: string, x: string)
    requires NoNewline(s)
    ensures NoNewline(x) ==> NoNewline(s + x)
    ensures IsLine(x) ==> IsLine(s + x)
  {
    FindAppend(s, x, '\n');
  }

  /** Without its newline a line has none. */
  lemma LineBody(s: string)
    requires IsLine(s)
    ensures NoNewline(s[..|s| - 1]) && s == s[..|s| - 1] + ['\n']
  {
    FindMeaning(s, '\n');
    FindNothing(s[..|s| - 1], '\n');
  }

  /** A stream starts with one line only. */
  lemma FirstLine(a: string, x: string, b: string, y: string)
    requires IsLine(a) && IsLine(b) && a + x == b + y
    ensures a == b && x == y
  {
    FindAppend(a, x, '\n');
    FindAppend(b, y, '\n');
    var s := a + x;
    assert a == s[..|a|] && x == s[|a|..] && b == s[..|b|] && y == s[|b|..];
  }

  lemma ConcatCons(lines: seq<string>, x: string)
    requires lines != []
    ensures Concat(lines) + x == lines[0] + (Concat(lines[1..]) + x)
  {
  }

  /** What has been read of a stream of lines, line by line, is a prefix of them. */
  lemma {:induction false} LinesReadPrefix(seen: seq<string>, x: string, lines: seq<string>)
    requires AllLines(seen) && AllLines(lines) && Concat(seen) + x == Concat(lines)
    ensures |seen| <= |lines| && seen == lines[..|seen|] && x == Concat(lines[|seen|..])
  {
    if seen == [] {
      assert "" + x == x && lines[0..] == lines;
    } else {
      ConcatCons(seen, x);
      assert lines != [] by {
        assert |Concat(seen) + x| >= |seen[0]| > 0;
      }
      assert Concat(lines) == lines[0] + Concat(lines[1..]);
      FirstLine(seen[0], Concat(seen[1..]) + x, lines[0], Concat(lines[1..]));
      LinesReadPrefix(seen[1..], x, lines[1..]);
      assert lines[1..][|seen| - 1..] == lines[|seen|..];
      assert lines[..|seen|] == [lines[0]] + lines[1..][..|seen| - 1];
    }
  }

  /** Cutting a text after each newline. */
  function Split(s: string): seq<string>
    decreases |s|
  {
    if s == "" then []
    else if NoNewline(s) then [s]
    else [s[..LineEnd(s) + 1]] + Split(s[LineEnd(s) + 1..])
  }

  /** Lines laid end to end can be cut apart again. */
  lemma {:induction false} SplitConcat(lines: seq<string>)
    requires AllLines(lines)
    ensures Split(Concat(lines)) == lines
  {
    if lines != [] {
      var first, rest := lines[0], Concat(lines[1..]);
      FindAppend(first, rest, '\n');
      assert (first + rest)[..|first|] == first && (first + rest)[|first|..] == rest;
      SplitConcat(lines[1..]);
    }
  }
}
