/** The shared set of directory names, kept in the order in which std::set hands them out,
    and the listing made from it. */
module FtpDirectories {
  import opened Text
  import opened Lines

  const PERMISSIONS := "drwxrwxrwx "
  const OWNER := "0 1000 1000 "
  const SIZE := "4096 "
  const DATE := "Sep 24 12:34 "
  const DIR_FORMAT := PERMISSIONS + (OWNER + (SIZE + DATE))

  /** std::string's order: by the first octet that differs, a proper prefix first. */
  predicate Less(a: string, b: string) {
    b != "" && (a == "" || a[0] < b[0] || (a[0] == b[0] && Less(a[1..], b[1..])))
  }

  lemma {:induction false} LessTotal(a: string, b: string)
    ensures Less(a, b) || a == b || Less(b, a)
  {
    if a != "" && b != "" && a[0] == b[0] {
      LessTotal(a[1..], b[1..]);
      if a[1..] == b[1..] {
        assert a == [a[0]] + a[1..] == b;
      }
    }
  }

  lemma {:induction false} LessTransitive(a: string, b: string, c: string)
    requires Less(a, b) && Less(b, c)
    ensures Less(a, c)
  {
    if a != "" && a[0] == b[0] == c[0] {
      LessTransitive(a[1..], b[1..], c[1..]);
    }
  }

  lemma {:induction false} LessIrreflexive(a: string)
    ensures !Less(a, a)
  {
    if a != "" {
      LessIrreflexive(a[1..]);
    }
  }

  /** The same order said at once: at the first difference the smaller octet, or a proper
      prefix. */
  ghost predicate Precedes(a: string, b: string) {
    exists k :: 0 <= k <= |a| && k < |b| && a[..k] == b[..k] && (k == |a| || a[k] < b[k])
  }

  lemma {:induction false} LessMeaning(a: string, b: string)
    ensures Less(a, b) <==> Precedes(a, b)
  {
    if Less(a, b) {
      if a == "" || a[0] < b[0] {
        assert a[..0] == b[..0];
      } else {
        LessMeaning(a[1..], b[1..]);
        var k :| 0 <= k <= |a[1..]| && k < |b[1..]| && a[1..][..k] == b[1..][..k] && (k == |a[1..]| || a[1..][k] < b[1..][k]);
        assert a[..k + 1] == [a[0]] + a[1..][..k] && b[..k + 1] == [b[0]] + b[1..][..k];
      }
    }
    if Precedes(a, b) {
      var k :| 0 <= k <= |a| && k < |b| && a[..k] == b[..k] && (k == |a| || a[k] < b[k]);
      if k > 0 {
        assert a[0] == a[..k][0] == b[..k][0] == b[0];
        assert a[1..][..k - 1] == a[..k][1..] == b[..k][1..] == b[1..][..k - 1];
        assert Precedes(a[1..], b[1..]);
        LessMeaning(a[1..], b[1..]);
      }
    }
  }

  ghost predicate StrictlySorted(names: seq<string>) {
    forall i, j :: 0 <= i < j < |names| ==> Less(names[i], names[j])
  }

  ghost function Names(names: seq<string>): set<string> {
    set n | n in names
  }

  /** std::set::insert of a name that is not there. */
  function Insert(names: seq<string>, x: string): seq<string> {
    if names == [] || Less(x, names[0]) then [x] + names else [names[0]] + Insert(names[1..], x)
  }

  /** std::set::erase of a name. */
  function Erase(names: seq<string>, x: string): seq<string> {
    if names == [] then [] else if names[0] == x then names[1..] else [names[0]] + Erase(names[1..], x)
  }

  /** Putting a name that is less than all the others in front. */
  lemma ConsSorted(x: string, names: seq<string>)
    requires StrictlySorted(names) && forall n :: n in names ==> Less(x, n)
    ensures StrictlySorted([x] + names) && Names([x] + names) == {x} + Names(names)
  {
    var r := [x] + names;
    forall i, j | 0 <= i < j < |r| ensures Less(r[i], r[j]) {
      assert r[j] in names;
    }
  }

  lemma TailSorted(names: seq<string>)
    requires StrictlySorted(names) && names != []
    ensures StrictlySorted(names[1..]) && Names(names) == {names[0]} + Names(names[1..])
    ensures forall n :: n in names[1..] ==> Less(names[0], n)
  {
    forall n | n in names[1..] ensures Less(names[0], n) {
      var k :| 0 <= k < |names[1..]| && names[1..][k] == n;
      assert names[k + 1] == n;
    }
    assert forall n :: n in names <==> n == names[0] || n in names[1..];
  }

  lemma {:induction false} InsertSorted(names: seq<string>, x: string)
    requires StrictlySorted(names) && x !in names
    ensures StrictlySorted(Insert(names, x)) && Names(Insert(names, x)) == Names(names) + {x}
  {
    hide StrictlySorted, Less;
    if names == [] {
      ConsSorted(x, names);
    } else {
      TailSorted(names);
      if Less(x, names[0]) {
        forall n | n in names ensures Less(x, n) {
          if n in names[1..] {
            LessTransitive(x, names[0], n);
          }
        }
        ConsSorted(x, names);
      } else {
        LessTotal(x, names[0]);
        InsertSorted(names[1..], x);
        assert forall n :: n in Insert(names[1..], x) ==> n in Names(Insert(names[1..], x));
        ConsSorted(names[0], Insert(names[1..], x));
      }
    }
  }

  lemma {:induction false} EraseSorted(names: seq<string>, x: string)
    requires StrictlySorted(names)
    ensures StrictlySorted(Erase(names, x)) && Names(Erase(names, x)) == Names(names) - {x}
  {
    hide StrictlySorted, Less;
    if names != [] {
      TailSorted(names);
      LessIrreflexive(names[0]);
      assert names[0] !in names[1..];
      if names[0] != x {
        EraseSorted(names[1..], x);
        assert forall n :: n in Erase(names[1..], x) ==> n in Names(Erase(names[1..], x));
        ConsSorted(names[0], Erase(names[1..], x));
      }
    }
  }

  /** A set has one strictly sorted sequence only, whatever operations led to it. */
  lemma {:induction false} SortedIsUnique(a: seq<string>, b: seq<string>)
    requires StrictlySorted(a) && StrictlySorted(b) && Names(a) == Names(b)
    ensures a == b
  {
    SameEmptiness(a, b);
    if a != [] {
      FirstIsLeast(a, b);
      FirstIsLeast(b, a);
      LessIrreflexive(a[0]);
      if Less(a[0], b[0]) && Less(b[0], a[0]) {
        LessTransitive(a[0], b[0], a[0]);
      }
      assert a[0] == b[0];
      NamesOfTail(a);
      NamesOfTail(b);
      SortedIsUnique(a[1..], b[1..]);
      assert a == [a[0]] + a[1..] && b == [b[0]] + b[1..];
    }
  }

  lemma SameEmptiness(a: seq<string>, b: seq<string>)
    requires Names(a) == Names(b)
    ensures a == [] <==> b == []
  {
    assert forall n :: n in a <==> n in Names(a);
    assert forall n :: n in b <==> n in Names(b);
    assert a != [] ==> a[0] in a;
    assert b != [] ==> b[0] in b;
  }

  lemma FirstIsLeast(a: seq<string>, b: seq<string>)
    requires StrictlySorted(a) && a != [] && b != [] && Names(a) == Names(b)
    ensures a[0] == b[0] || Less(a[0], b[0])
  {
    assert b[0] in Names(a);
    var k :| 0 <= k < |a| && a[k] == b[0];
  }

  lemma NamesOfTail(a: seq<string>)
    requires StrictlySorted(a) && a != []
    ensures Names(a[1..]) == Names(a) - {a[0]} && StrictlySorted(a[1..])
  {
    hide StrictlySorted, Less;
    TailSorted(a);
    LessIrreflexive(a[0]);
  }

  // ---- The listing ----

  function ListLines(names: seq<string>): (lines: seq<string>)
    ensures |lines| == |names|
  {
    seq(|names|, k requires 0 <= k < |names| => DIR_FORMAT + names[k])
  }

  lemma ListLineIs(names: seq<string>, k: int)
    requires 0 <= k < |names|
    ensures ListLines(names)[k] == "drwxrwxrwx 0 1000 1000 4096 Sep 24 12:34 " + names[k]
  {
    DateIs();
    OwnerIs();
    PermissionsIs();
  }

  lemma PermissionsIs()
    ensures PERMISSIONS + "0 1000 1000 4096 Sep 24 12:34 " == "drwxrwxrwx 0 1000 1000 4096 Sep 24 12:34 "
  {
  }

  lemma DateIs()
    ensures SIZE + DATE == "4096 Sep 24 12:34 "
  {
  }

  lemma OwnerIs()
    ensures OWNER + "4096 Sep 24 12:34 " == "0 1000 1000 4096 Sep 24 12:34 "
  {
  }

  /** In a sorted list every name precedes the later ones. */
  lemma SortedPrecedes(names: seq<string>)
    requires StrictlySorted(names)
    ensures forall i, j :: 0 <= i < j < |names| ==> Precedes(names[i], names[j])
  {
    hide Precedes, Less;
    forall i, j | 0 <= i < j < |names| ensures Precedes(names[i], names[j]) {
      LessMeaning(names[i], names[j]);
    }
  }

  /** What get_list returns. */
  function Listing(names: seq<string>): string {
    Concat(ListLines(names))
  }

  lemma ListLinesAreLines(names: seq<string>)
    requires AllLines(names)
    ensures AllLines(ListLines(names))
  {
    DirFormatHasNoNewline();
    forall k | 0 <= k < |names| ensures IsLine(ListLines(names)[k]) {
      JoinNoNewline(DIR_FORMAT, names[k]);
    }
  }

  lemma DirFormatHasNoNewline()
    ensures NoNewline(DIR_FORMAT)
  {
    hide Find;
    FindNothing(PERMISSIONS, '\n');
    FindNothing(OWNER, '\n');
    FindNothing(SIZE, '\n');
    FindNothing(DATE, '\n');
    JoinNoNewline(SIZE, DATE);
    JoinNoNewline(OWNER, SIZE + DATE);
    JoinNoNewline(PERMISSIONS, OWNER + (SIZE + DATE));
  }

  function StripPrefixes(lines: seq<string>): seq<string> {
    seq(|lines|, k requires 0 <= k < |lines| => if |lines[k]| < |DIR_FORMAT| then "" else lines[k][|DIR_FORMAT|..])
  }

  /** Cutting the listing into lines and dropping the prefix gives the names back. */
  lemma ListingRecoversNames(names: seq<string>)
    requires AllLines(names)
    ensures StripPrefixes(Split(Listing(names))) == names
  {
    ListLinesAreLines(names);
    SplitConcat(ListLines(names));
    forall k | 0 <= k < |names| ensures StripPrefixes(ListLines(names))[k] == names[k] {
    }
  }

  /** So listings are equal exactly when the sets are. */
  lemma ListingIsCanonical(a: seq<string>, b: seq<string>)
    requires StrictlySorted(a) && StrictlySorted(b) && AllLines(a) && AllLines(b)
    ensures Listing(a) == Listing(b) <==> Names(a) == Names(b)
  {
    if Names(a) == Names(b) {
      SortedIsUnique(a, b);
    }
    ListingRecoversNames(a);
    ListingRecoversNames(b);
  }
}
