/**
 * The string operations the pipeline borrows from Python: str.strip(), the `in` substring
 * test, str.split(sep, 1), str.replace(c, ''), ', '.join(...) and os.path.basename.
 */
module Text {
  import opened Wrappers

  /** The characters Python's str.isspace() accepts, which str.strip() removes. */
  predicate IsSpace(c: char) {
    || ('\t' <= c <= '\r')
    || ('\U{1C}' <= c <= ' ')
    || c == '\U{85}' || c == '\U{A0}' || c == '\U{1680}'
    || ('\U{2000}' <= c <= '\U{200A}')
    || c == '\U{2028}' || c == '\U{2029}' || c == '\U{202F}' || c == '\U{205F}' || c == '\U{3000}'
  }

  /** A string with no whitespace at either end. */
  predicate Stripped(s: string) {
    s == [] || (!IsSpace(s[0]) && !IsSpace(s[|s| - 1]))
  }

  /** The number of whitespace characters at the start of `s`. */
  function LeadingBlanks(s: string): (n: nat)
    ensures n <= |s|
    ensures forall i :: 0 <= i < n ==> IsSpace(s[i])
    ensures n < |s| ==> !IsSpace(s[n])
  {
    if s != [] && IsSpace(s[0]) then
      var m := LeadingBlanks(s[1..]);
      assert forall i :: 1 <= i < m + 1 ==> s[i] == s[1..][i - 1];
      m + 1
    else 0
  }

  /** Where the trailing whitespace of `s` starts. */
  function TextEnd(s: string): (n: nat)
    ensures n <= |s|
    ensures forall i :: n <= i < |s| ==> IsSpace(s[i])
    ensures n > 0 ==> !IsSpace(s[n - 1])
  {
    if s != [] && IsSpace(s[|s| - 1]) then TextEnd(s[..|s| - 1]) else |s|
  }

  /** Python's str.lstrip(): drops the leading whitespace. */
  function TrimLeft(s: string): string {
    s[LeadingBlanks(s)..]
  }

  /** Python's str.rstrip(): drops the trailing whitespace. */
  function TrimRight(s: string): string {
    s[..TextEnd(s)]
  }

  /** Python's str.strip() with no argument: whitespace is dropped from either end until none is left. */
  function Strip(s: string): (r: string)
    ensures Stripped(r)
    ensures Stripped(s) ==> r == s
    decreases |s|
  {
    if s != [] && IsSpace(s[0]) then Strip(s[1..])
    else if s != [] && IsSpace(s[|s| - 1]) then Strip(s[..|s| - 1])
    else s
  }

  /** strip() is rstrip() after lstrip(). */
  lemma {:induction false} StripIsTrim(s: string)
    ensures Strip(s) == TrimRight(TrimLeft(s))
    decreases |s|
  {
    if s != [] && IsSpace(s[0]) {
      StripIsTrim(s[1..]);
      assert TrimLeft(s) == TrimLeft(s[1..]);
    } else if s != [] && IsSpace(s[|s| - 1]) {
      var p := s[..|s| - 1];
      StripIsTrim(p);
      assert TrimLeft(s) == s;
      if p != [] {
        assert p[0] == s[0];
      }
      assert TrimLeft(p) == p;
      assert TrimRight(s) == TrimRight(p);
    } else {
      assert TrimLeft(s) == s;
      assert TrimRight(s) == s;
    }
  }

  /** One leading blank before stripped text is all that strip() removes. */
  lemma StripLeadingBlank(s: string)
    requires Stripped(s)
    ensures Strip([' '] + s) == s
  {
    var t := [' '] + s;
    assert t[1..] == s;
  }

  /** One trailing blank after stripped, non-empty text is all that strip() removes. */
  lemma StripTrailingBlank(s: string)
    requires s != [] && Stripped(s)
    ensures Strip(s + [' ']) == s
  {
    var t := s + [' '];
    assert t[0] == s[0];
    assert t[..|t| - 1] == s;
  }

  /** Stripping never introduces a character it did not find. */
  lemma StripLacks(s: string, c: char)
    requires c !in s
    ensures c !in Strip(s)
  {
    if c in Strip(s) {
      StripChars(s, c);
    }
  }

  /** Where Strip(s) starts inside s. */
  function StripStart(s: string): nat {
    LeadingBlanks(s)
  }

  /** Strip(s) is the slice of s that starts at StripStart(s), and everything around it is whitespace. */
  lemma StripSlice(s: string)
    ensures StripStart(s) + |Strip(s)| <= |s|
    ensures Strip(s) == s[StripStart(s)..StripStart(s) + |Strip(s)|]
    ensures forall i :: 0 <= i < StripStart(s) ==> IsSpace(s[i])
    ensures forall i :: StripStart(s) + |Strip(s)| <= i < |s| ==> IsSpace(s[i])
  {
    StripIsTrim(s);
    var a, u := LeadingBlanks(s), TrimLeft(s);
    var b := TextEnd(u);
    forall i | a + b <= i < |s| ensures IsSpace(s[i]) {
      assert s[i] == u[i - a];
    }
  }

  /** Stripping never introduces a character. */
  lemma StripChars(s: string, c: char)
    requires c in Strip(s)
    ensures c in s
  {
    StripSlice(s);
    var a := StripStart(s);
    var k :| 0 <= k < |Strip(s)| && Strip(s)[k] == c;
    assert s[a + k] == c;
  }

  /** Python's `needle in s` on strings. */
  predicate Contains(s: string, needle: string) {
    exists i :: 0 <= i <= |s| - |needle| && OccursAt(s, needle, i)
  }

  /** `needle` occurs in `s` starting at index `i`. */
  predicate OccursAt(s: string, needle: string, i: int) {
    0 <= i <= |s| - |needle| && s[i..i + |needle|] == needle
  }

  /** A substring test against a needle without surrounding whitespace is blind to stripping. */
  lemma ContainsStrip(s: string, needle: string)
    requires needle != [] && Stripped(needle)
    ensures Contains(Strip(s), needle) <==> Contains(s, needle)
  {
    if Contains(Strip(s), needle) {
      var i :| 0 <= i <= |Strip(s)| - |needle| && OccursAt(Strip(s), needle, i);
      OccurrenceWidens(s, needle, i);
    }
    if Contains(s, needle) {
      var i :| 0 <= i <= |s| - |needle| && OccursAt(s, needle, i);
      OccurrenceNarrows(s, needle, i);
    }
  }

  lemma OccurrenceWidens(s: string, needle: string, i: int)
    requires OccursAt(Strip(s), needle, i)
    ensures Contains(s, needle)
  {
    StripSlice(s);
    var a, t, n := StripStart(s), Strip(s), |needle|;
    forall k | 0 <= k < n ensures s[a + i + k] == needle[k] {
      assert needle[k] == t[i..i + n][k] == t[i + k];
    }
    assert s[a + i..a + i + n] == needle;
    assert OccursAt(s, needle, a + i);
  }

  lemma OccurrenceNarrows(s: string, needle: string, i: int)
    requires needle != [] && Stripped(needle)
    requires OccursAt(s, needle, i)
    ensures Contains(Strip(s), needle)
  {
    StripSlice(s);
    var a, t, n := StripStart(s), Strip(s), |needle|;
    assert s[i] == needle[0] && !IsSpace(needle[0]);
    assert s[i + n - 1] == needle[n - 1] && !IsSpace(needle[n - 1]);
    assert a <= i;
    assert i + n <= a + |t|;
    forall k | 0 <= k < n ensures t[i - a + k] == needle[k] {
      assert needle[k] == s[i..i + n][k] == s[i + k];
    }
    assert t[i - a..i - a + n] == needle;
    assert OccursAt(t, needle, i - a);
  }

  /** Python's s.split(sep, 1): the text before the first `sep`, and the text after it when there is one. */
  function SplitFirst(s: string, sep: char): (r: (string, Option<string>))
    ensures sep !in r.0
    ensures r.1.None? ==> r.0 == s
    ensures r.1.Some? ==> s == r.0 + [sep] + r.1.value
  {
    if s == [] then ([], None)
    else if s[0] == sep then ([], Some(s[1..]))
    else
      var (head, rest) := SplitFirst(s[1..], sep);
      ([s[0]] + head, rest)
  }

  /** Splitting a string joined at a separator that the head lacks gives the two parts back. */
  lemma {:induction false} SplitFirstJoined(head: string, sep: char, tail: string)
    requires sep !in head
    ensures SplitFirst(head + [sep] + tail, sep) == (head, Some(tail))
  {
    if head == [] {
      assert head + [sep] + tail == [sep] + tail;
    } else {
      SplitFirstJoined(head[1..], sep, tail);
      assert (head + [sep] + tail)[1..] == head[1..] + [sep] + tail;
      assert [head[0]] + head[1..] == head;
    }
  }

  /** Without the separator, the whole string is the head. */
  lemma SplitFirstAbsent(s: string, sep: char)
    requires sep !in s
    ensures SplitFirst(s, sep) == (s, None)
  {
  }

  /** Python's s.replace(c, ''). */
  function RemoveAll(s: string, c: char): string {
    if s == [] then []
    else (if s[0] == c then [] else [s[0]]) + RemoveAll(s[1..], c)
  }

  /** Nothing to delete leaves the text as it was. */
  lemma {:induction false} RemoveAllAbsent(s: string, c: char)
    requires c !in s
    ensures RemoveAll(s, c) == s
  {
    if s != [] {
      RemoveAllAbsent(s[1..], c);
    }
  }

  /** Deleting a character distributes over concatenation. */
  lemma {:induction false} RemoveAllConcat(a: string, b: string, c: char)
    ensures RemoveAll(a + b, c) == RemoveAll(a, c) + RemoveAll(b, c)
  {
    if a != [] {
      assert (a + b)[1..] == a[1..] + b;
      RemoveAllConcat(a[1..], b, c);
    } else {
      assert a + b == b;
    }
  }

  /** Deleting the only occurrence of a character. */
  lemma RemoveOne(head: string, c: char, tail: string)
    requires c !in head && c !in tail
    ensures RemoveAll(head + [c] + tail, c) == head + tail
  {
    var front := head + [c];
    RemoveAllConcat(front, tail, c);
    RemoveAllConcat(head, [c], c);
    RemoveAllSelf(c);
    RemoveAllAbsent(head, c);
    RemoveAllAbsent(tail, c);
    assert RemoveAll(front, c) == head;
  }

  lemma RemoveAllSelf(c: char)
    ensures RemoveAll([c], c) == []
  {
    assert [c][1..] == [];
  }

  /** Python's sep.join(parts). */
  function Join(sep: string, parts: seq<string>): string {
    if parts == [] then []
    else if |parts| == 1 then parts[0]
    else Join(sep, parts[..|parts| - 1]) + sep + parts[|parts| - 1]
  }

  /** os.path.basename on a POSIX path: the text after the last '/'. */
  function BaseName(path: string): string {
    if path == [] || path[|path| - 1] == '/' then []
    else BaseName(path[..|path| - 1]) + [path[|path| - 1]]
  }

  /** The base name is the longest suffix of the path without '/'. */
  lemma {:induction false} BaseNameSuffix(path: string)
    ensures var r := BaseName(path);
      && '/' !in r
      && |r| <= |path| && r == path[|path| - |r|..]
      && (|r| < |path| ==> path[|path| - |r| - 1] == '/')
  {
    if path != [] && path[|path| - 1] != '/' {
      var init, c := path[..|path| - 1], path[|path| - 1];
      BaseNameSuffix(init);
      var r0 := BaseName(init);
      var r := r0 + [c];
      assert BaseName(path) == r;
      assert path == init + [c];
      assert path[|path| - |r|..] == init[|init| - |r0|..] + [c];
    }
  }
}
