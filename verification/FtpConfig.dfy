/** The configuration file: a stream of key=value lines read into a map (common_config.cpp). */
module FtpConfig {
  import opened Text
  import opened Lines

  /** An input file stream: what is left, and its two error flags. */
  datatype Stream = Stream(rest: string, eof: bool, fail: bool)

  /** std::getline into a string that held `before`: a stream that is not good leaves the
      string alone; otherwise it is replaced by the text up to the delimiter. */
  function GetLine(st: Stream, before: string, delim: char): (Stream, string) {
    if st.eof || st.fail then (st.(fail := true), before)
    else
      var n := Find(st.rest, delim);
      if n < |st.rest| then (Stream(st.rest[n + 1..], false, false), st.rest[..n])
      else (Stream("", true, st.rest == ""), st.rest)
  }

  /** unordered_map::emplace keeps the binding that is there. */
  function Emplace(m: map<string, string>, key: string, value: string): map<string, string> {
    if key in m then m else m[key := value]
  }

  /** One iteration of the loading loop: a key, a value, a binding. */
  function LoadOne(st: Stream, value: string, m: map<string, string>): (Stream, string, map<string, string>) {
    var (afterKey, key) := GetLine(st, "", '=');
    var (afterValue, text) := GetLine(afterKey, value, '\n');
    (afterValue, text + ['\n'], Emplace(m, key, text + ['\n']))
  }

  /** The map a file is loaded into, from a point where the value string held `value`. */
  function Load(st: Stream, value: string, m: map<string, string>): map<string, string>
    requires st.eof || !st.fail
    decreases !st.eof, |st.rest|
  {
    if st.eof then m
    else
      var (next, text, bound) := LoadOne(st, value, m);
      Load(next, text, bound)
  }

  class Config {
    var configmap: map<string, string>

    /** The loop of the constructor. The stream never fails before its end is noticed, so
        the loop stops. */
    constructor (file: string)
      ensures configmap == Load(Stream(file, false, false), "", map[])
    {
      var stream, auxStr1, auxStr2 := Stream(file, false, false), "", "";
      var bindings: map<string, string> := map[];
      while !stream.eof
        invariant stream.eof || !stream.fail
        invariant Load(stream, auxStr2, bindings) == Load(Stream(file, false, false), "", map[])
        decreases !stream.eof, |stream.rest|
      {
        var (afterKey, key) := GetLine(stream, auxStr1, '=');
        auxStr1 := key;
        var (afterValue, value) := GetLine(afterKey, auxStr2, '\n');
        auxStr2 := value + ['\n'];
        bindings := Emplace(bindings, auxStr1, auxStr2);
        stream := afterValue;
      }
      configmap := bindings;
    }

    /** Looks a key up; a missing key would be read through an end iterator. */
    function GetMessage(key: string): (value: string)
      requires key in configmap
      reads this
      ensures value == configmap[key]
    {
      configmap[key]
    }
  }

  // ---- Well-formed files ----

  datatype Entry = Entry(key: string, value: string)

  /** A key without '=' and a value without newline; the value may contain '='. */
  predicate IsEntry(e: Entry) {
    e.key != "" && Find(e.key, '=') == |e.key| && Find(e.value, '\n') == |e.value|
  }

  ghost predicate AllEntries(es: seq<Entry>) {
    forall k :: 0 <= k < |es| ==> IsEntry(es[k])
  }

  function EntryText(e: Entry): string {
    e.key + ['='] + e.value
  }

  /** A file with one entry per line; the newline of the last line may be missing. */
  function FileText(es: seq<Entry>, lastNewline: bool): string {
    if es == [] then ""
    else if |es| == 1 && !lastNewline then EntryText(es[0])
    else EntryText(es[0]) + ['\n'] + FileText(es[1..], lastNewline)
  }

  /** The first value bound to a key. */
  function FirstValue(es: seq<Entry>, key: string): (r: seq<string>)
    ensures |r| <= 1
  {
    if es == [] then [] else if es[0].key == key then [es[0].value] else FirstValue(es[1..], key)
  }

  lemma GetLineSplit(x: string, y: string, before: string, delim: char)
    requires Find(x, delim) == |x|
    ensures GetLine(Stream(x + [delim] + y, false, false), before, delim) == (Stream(y, false, false), x)
  {
    hide Find;
    var s := x + [delim] + y;
    assert Find(s, delim) == |x| by {
      assert s == x + ([delim] + y);
      FindAppend(x, [delim] + y, delim);
      FoundFirst(delim, y);
    }
    assert s[..|x|] == x;
    assert s[|x| + 1..] == y;
  }

  lemma FoundFirst(delim: char, y: string)
    ensures Find([delim] + y, delim) == 0
  {
  }

  lemma GetLineLast(x: string, before: string, delim: char)
    requires Find(x, delim) == |x|
    ensures GetLine(Stream(x, false, false), before, delim) == (Stream("", true, x == ""), x)
  {
  }

  /** One iteration over a well-formed file reads its first entry. */
  lemma LoadEntry(e: Entry, rest: string, ended: bool, value: string, m: map<string, string>)
    requires IsEntry(e)
    ensures var file := if ended then EntryText(e) else EntryText(e) + ['\n'] + rest;
      LoadOne(Stream(file, false, false), value, m)
      == (if ended then Stream("", true, e.value == "") else Stream(rest, false, false),
          e.value + ['\n'], Emplace(m, e.key, e.value + ['\n']))
  {
    hide GetLine, Find;
    var tail := if ended then e.value else e.value + ['\n'] + rest;
    GetLineSplit(e.key, tail, "", '=');
    GetLineSplit(e.value, rest, value, '\n');
    GetLineLast(e.value, value, '\n');
    assert (if ended then EntryText(e) else EntryText(e) + ['\n'] + rest) == e.key + ['='] + tail;
  }

  /** At the end of a file that ends in a newline one more iteration runs: it binds the
      empty key, to whatever the value string held. */
  lemma LoadSpurious(value: string, m: map<string, string>)
    ensures Load(Stream("", false, false), value, m) == Emplace(m, "", value + ['\n'])
  {
    assert LoadOne(Stream("", false, false), value, m) == (Stream("", true, true), value + ['\n'], Emplace(m, "", value + ['\n']));
  }

  /** Loading a well-formed file: every key gets the first value bound to it, with a newline. */
  lemma {:induction false} LoadFile(es: seq<Entry>, lastNewline: bool, value: string, m: map<string, string>, key: string)
    requires AllEntries(es) && key != ""
    ensures var r := Load(Stream(FileText(es, lastNewline), false, false), value, m);
      && (key in r <==> key in m || FirstValue(es, key) != [])
      && (key in m ==> r[key] == m[key])
      && (key !in m && FirstValue(es, key) != [] ==> r[key] == FirstValue(es, key)[0] + ['\n'])
  {
    hide LoadOne, EntryText;
    if es == [] {
      LoadSpurious(value, m);
    } else {
      var ended := |es| == 1 && !lastNewline;
      var e := es[0];
      LoadEntry(e, FileText(es[1..], lastNewline), ended, value, m);
      if ended {
        assert es[1..] == [];
      } else {
        LoadFile(es[1..], lastNewline, e.value + ['\n'], Emplace(m, e.key, e.value + ['\n']), key);
      }
    }
  }

  /** What the server relies on: a key of the file is found, and its message is a line. */
  lemma MessagesAreLines(es: seq<Entry>, lastNewline: bool, key: string)
    requires AllEntries(es) && key != "" && FirstValue(es, key) != []
    ensures var m := Load(Stream(FileText(es, lastNewline), false, false), "", map[]);
      key in m && m[key] == FirstValue(es, key)[0] + ['\n'] && IsLine(m[key])
  {
    LoadFile(es, lastNewline, "", map[], key);
    FirstValueIsEntry(es, key);
    EndLine(FirstValue(es, key)[0]);
  }

  lemma {:induction false} FirstValueIsEntry(es: seq<Entry>, key: string)
    requires AllEntries(es) && FirstValue(es, key) != []
    ensures Find(FirstValue(es, key)[0], '\n') == |FirstValue(es, key)[0]|
  {
    if es[0].key != key {
      FirstValueIsEntry(es[1..], key);
    }
  }
}
