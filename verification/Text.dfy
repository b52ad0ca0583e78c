/** Strings as both programs see them: sequences of octets held in `char`, C strings
    ending at a NUL inside a buffer, and lists of strings laid end to end on a stream. */
module Text {

  const NUL: char := '\0'

  predicate NulFree(s: string) {
    NUL !in s
  }

  /** The C string stored at the start of a buffer: everything before the first NUL. */
  function CStr(buf: string): (s: string)
    ensures NulFree(s)
    ensures s <= buf
    ensures |s| < |buf| ==> buf[|s|] == NUL
  {
    if buf == "" || buf[0] == NUL then "" else [buf[0]] + CStr(buf[1..])
  }

  /** A buffer that starts with s and then a NUL holds the C string s, whatever comes after. */
  lemma {:induction false} CStrOf(buf: string, s: string)
    requires NulFree(s) && |s| < |buf| && buf[|s|] == NUL
    requires forall p :: 0 <= p < |s| ==> buf[p] == s[p]
    ensures CStr(buf) == s
  {
    if s != "" {
      CStrOf(buf[1..], s[1..]);
    }
  }

  /** A sequence of strings laid end to end. */
  function Concat(parts: seq<string>): string {
    if parts == [] then "" else parts[0] + Concat(parts[1..])
  }

  lemma {:induction false} ConcatAppend(a: seq<string>, b: seq<string>)
    ensures Concat(a + b) == Concat(a) + Concat(b)
  {
    if a == [] {
      assert a + b == b;
    } else {
      assert (a + b)[1..] == a[1..] + b;
      ConcatAppend(a[1..], b);
    }
  }

  lemma ConcatSnoc(a: seq<string>, x: string)
    ensures Concat(a + [x]) == Concat(a) + x
  {
    ConcatAppend(a, [x]);
    assert Concat([x]) == x;
  }

  /** The position of the first occurrence of c, or the length when there is none. */
  function Find(s: string, c: char): (n: nat)
    ensures n <= |s|
  {
    if s == "" || s[0] == c then 0 else 1 + Find(s[1..], c)
  }

  lemma {:induction false} FindMeaning(s: string, c: char)
    ensures c !in s[..Find(s, c)] && (Find(s, c) < |s| ==> s[Find(s, c)] == c)
  {
    if s != "" && s[0] != c {
      FindMeaning(s[1..], c);
      assert s[..Find(s, c)] == [s[0]] + s[1..][..Find(s, c) - 1];
    }
  }

  lemma {:induction false} FindAppend(s: string, x: string, c: char)
    ensures Find(s + x, c) == if Find(s, c) == |s| then |s| + Find(x, c) else Find(s, c)
  {
    if s == "" {
      assert s + x == x;
    } else if s[0] != c {
      assert (s + x)[1..] == s[1..] + x;
      FindAppend(s[1..], x, c);
    }
  }

  lemma {:induction false} FindNothing(s: string, c: char)
    ensures Find(s, c) == |s| <==> c !in s
  {
    if s != "" {
      FindNothing(s[1..], c);
      assert s == [s[0]] + s[1..];
    }
  }
}
