/** The string operations of Python and the shell that the models share. */
module Strings {

  /** Blanks of the C locale: isspace() and [[:space:]]. */
  predicate IsBlank(c: char) {
    c == ' ' || '\t' <= c <= '\r'
  }

  /** str.isspace() for one character. */
  predicate PyIsSpace(c: char) {
    || IsBlank(c) || '\U{1C}' <= c <= '\U{1F}' || c == '\U{85}' || c == '\U{A0}' || c == '\U{1680}'
    || '\U{2000}' <= c <= '\U{200A}' || c == '\U{2028}' || c == '\U{2029}' || c == '\U{202F}'
    || c == '\U{205F}' || c == '\U{3000}'
  }

  function StripLeft(s: string, blank: char -> bool): (r: string)
    ensures r == [] || !blank(r[0])
    ensures s != [] && !blank(s[0]) ==> r == s
    ensures forall c :: c in r ==> c in s
  {
    if s != [] && blank(s[0]) then StripLeft(s[1..], blank) else s
  }

  function StripRight(s: string, blank: char -> bool): (r: string)
    ensures r <= s
    ensures r == [] || !blank(r[|r| - 1])
    ensures s != [] && !blank(s[|s| - 1]) ==> r == s
  {
    if s != [] && blank(s[|s| - 1]) then StripRight(s[..|s| - 1], blank) else s
  }

  /** s.strip() with the given notion of a blank. */
  function Strip(s: string, blank: char -> bool): (r: string)
    ensures r == [] || (!blank(r[0]) && !blank(r[|r| - 1]))
    ensures s != [] && !blank(s[0]) && !blank(s[|s| - 1]) ==> r == s
    ensures forall c :: c in r ==> c in s
  {
    StripRight(StripLeft(s, blank), blank)
  }

  /** s.split(sep) for a one-character separator. */
  function Split(s: string, sep: char): (r: seq<string>)
    ensures r != []
    ensures forall i :: 0 <= i < |r| ==> sep !in r[i]
  {
    if s == [] then [[]]
    else
      var rest := Split(s[1..], sep);
      if s[0] == sep then [[]] + rest else [[s[0]] + rest[0]] + rest[1..]
  }

  /** sep.join(parts) */
  function Join(parts: seq<string>, sep: char): string {
    if parts == [] then []
    else if |parts| == 1 then parts[0]
    else parts[0] + [sep] + Join(parts[1..], sep)
  }

  lemma {:induction false} SplitPlain(p: string, sep: char)
    requires sep !in p
    ensures Split(p, sep) == [p]
  {
    if p != [] {
      SplitPlain(p[1..], sep);
      assert [p[0]] + p[1..] == p;
    }
  }

  lemma {:induction false} SplitFirst(p: string, rest: string, sep: char)
    requires sep !in p
    ensures Split(p + [sep] + rest, sep) == [p] + Split(rest, sep)
  {
    var s := p + [sep] + rest;
    if p == [] {
      assert s[1..] == rest;
    } else {
      assert s[1..] == p[1..] + [sep] + rest;
      SplitFirst(p[1..], rest, sep);
      assert [p[0]] + p[1..] == p;
    }
  }

  /** Splitting undoes joining, except that joining no parts cannot be told
      from joining one empty part. */
  lemma {:induction false} SplitJoin(parts: seq<string>, sep: char)
    requires forall i :: 0 <= i < |parts| ==> sep !in parts[i]
    ensures Split(Join(parts, sep), sep) == if parts == [] then [[]] else parts
  {
    if |parts| == 1 {
      SplitPlain(parts[0], sep);
    } else if |parts| > 1 {
      SplitJoin(parts[1..], sep);
      SplitFirst(parts[0], Join(parts[1..], sep), sep);
    }
  }

  /** Where c occurs first, or the length. */
  function IndexOf(s: string, c: char): (i: nat)
    ensures i <= |s| && c !in s[..i] && (i < |s| ==> s[i] == c)
  {
    if s == "" || s[0] == c then 0
    else
      var i := 1 + IndexOf(s[1..], c);
      assert s[..i] == [s[0]] + s[1..][..i - 1];
      i
  }

  lemma {:induction false} IndexAt(p: string, c: char, rest: string)
    requires c !in p
    ensures IndexOf(p + [c] + rest, c) == |p|
  {
    if p != "" {
      assert (p + [c] + rest)[1..] == p[1..] + [c] + rest;
      IndexAt(p[1..], c, rest);
    }
  }
}
