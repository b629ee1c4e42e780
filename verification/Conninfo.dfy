/** bootstrap/clone_with_basebackup.py: the connection string of pg_basebackup, against the
    grammar of 'Connection Strings', section 34.1.1 of the PostgreSQL 16 documentation. */
module Conninfo {
  import opened Wrappers
  import opened Strings

  // ---- Printing --------------------------------------------------------------------

  function EscapedChar(c: char): string {
    if c == '\'' || c == '\\' then ['\\', c] else [c]
  }

  function EscapedChars(val: string): string {
    if val == "" then "" else EscapedChars(val[..|val| - 1]) + EscapedChar(val[|val| - 1])
  }

  predicate NeedsQuotes(val: string) {
    exists i :: 0 <= i < |val| && PyIsSpace(val[i])
  }

  function Escaped(val: string): string {
    if NeedsQuotes(val) then "'" + EscapedChars(val) + "'" else EscapedChars(val)
  }

  method EscapeValue(val: string) returns (r: string)
    ensures r == Escaped(val)
  {
    var quote, temp := false, "";
    for i := 0 to |val|
      invariant quote <==> exists j :: 0 <= j < i && PyIsSpace(val[j])
      invariant temp == EscapedChars(val[..i])
    {
      hide PyIsSpace;
      var c := val[i];
      if PyIsSpace(c) {
        quote := true;
      } else if c == '\'' || c == '\\' {
        temp := temp + "\\";
      }
      QuotesAreNoSpace();
      assert val[..i + 1][..i] == val[..i];
      temp := temp + [c];
    }
    assert val[..|val|] == val;
    r := if quote then "'" + temp + "'" else temp;
  }

  lemma QuotesAreNoSpace()
    ensures !PyIsSpace('\'') && !PyIsSpace('\\')
  {
  }

  const ATTRIBUTES := ["host", "port", "user", "dbname"]

  function Pair(name: string, val: string): string {
    name + "=" + Escaped(val)
  }

  function Connection(host: string, port: string, user: string, dbname: string): string {
    Pair("host", host) + " " + (Pair("port", port) + " " + (Pair("user", user) + " " + Pair("dbname", dbname)))
  }

  method PrepareConnection(host: string, port: string, user: string, dbname: string) returns (connstr: string)
    ensures connstr == Connection(host, port, user, dbname)
  {
    hide Escaped;
    var options := map["host" := host, "port" := port, "user" := user, "dbname" := dbname];
    connstr := "";
    for i := 0 to 4
      invariant connstr == match i
                           case 0 => ""
                           case 1 => Pair("host", host)
                           case 2 => Pair("host", host) + " " + Pair("port", port)
                           case 3 => Pair("host", host) + " " + Pair("port", port) + " " + Pair("user", user)
                           case _ => Connection(host, port, user, dbname)
    {
      var value := EscapeValue(options[ATTRIBUTES[i]]);
      connstr := connstr + (if i == 0 then "" else " ") + ATTRIBUTES[i] + "=" + value;
    }
  }

  // ---- Parsing -----------------------------------------------------------------------

  /** The inside of a quoted value up to its closing quote, and what follows. */
  function ReadQuoted(s: string): (r: Option<(string, string)>)
    ensures r.Some? ==> |r.value.1| < |s|
  {
    if s == "" then None
    else if s[0] == '\'' then Some(("", s[1..]))
    else
      var at := if s[0] == '\\' && |s| > 1 then 1 else 0;
      match ReadQuoted(s[at + 1..])
      case None => None
      case Some((val, rest)) => Some(([s[at]] + val, rest))
  }

  /** An unquoted value ends at a blank. */
  function ReadPlain(s: string): (r: (string, string))
    ensures |r.1| <= |s|
  {
    if s == "" || IsBlank(s[0]) then ("", s)
    else if s == "\\" then ("", "")
    else
      var at := if s[0] == '\\' then 1 else 0;
      var (val, rest) := ReadPlain(s[at + 1..]);
      ([s[at]] + val, rest)
  }

  function SkipBlanks(s: string): (r: string)
    ensures |r| <= |s| && (r == "" || !IsBlank(r[0]))
  {
    if s != "" && IsBlank(s[0]) then SkipBlanks(s[1..]) else s
  }

  /** A keyword ends at `=` or a blank. */
  function ReadName(s: string): (r: (string, string))
    ensures |r.1| <= |s|
  {
    if s == "" || s[0] == '=' || IsBlank(s[0]) then ("", s)
    else
      var (name, rest) := ReadName(s[1..]);
      ([s[0]] + name, rest)
  }

  /** One keyword and its value, from a string without leading blanks. */
  function ReadPair(s: string): (r: Option<(string, string, string)>)
    ensures r.Some? ==> |r.value.2| < |s|
  {
    var (name, afterName) := ReadName(s);
    var equals := SkipBlanks(afterName);
    if equals == "" || equals[0] != '=' then None
    else
      var text := SkipBlanks(equals[1..]);
      if text != "" && text[0] == '\'' then
        match ReadQuoted(text[1..])
        case None => None
        case Some((val, rest)) => Some((name, val, rest))
      else
        var (val, rest) := ReadPlain(text);
        Some((name, val, rest))
  }

  function Parse(s: string): Option<seq<(string, string)>>
    decreases |s|
  {
    var t := SkipBlanks(s);
    if t == "" then Some([])
    else
      match ReadPair(t)
      case None => None
      case Some((name, val, rest)) =>
        match Parse(rest)
        case None => None
        case Some(pairs) => Some([(name, val)] + pairs)
  }

  // ---- The round trip --------------------------------------------------------------------

  lemma {:induction false} EscapedFirst(val: string)
    requires val != ""
    ensures EscapedChars(val) == EscapedChar(val[0]) + EscapedChars(val[1..])
  {
    hide EscapedChar;
    var n := |val| - 1;
    if n == 0 {
      assert val[..0] == "" && val[1..] == "";
    } else {
      EscapedFirst(val[..n]);
      assert val[1..][..n - 1] == val[..n][1..] && val[1..][n - 1] == val[n];
      assert EscapedChar(val[0]) + EscapedChars(val[..n][1..]) + EscapedChar(val[n])
             == EscapedChar(val[0]) + (EscapedChars(val[..n][1..]) + EscapedChar(val[n]));
    }
  }

  lemma ReadPlainStep(c: char, t: string)
    requires !IsBlank(c)
    ensures ReadPlain(EscapedChar(c) + t) == ([c] + ReadPlain(t).0, ReadPlain(t).1)
  {
    assert (EscapedChar(c) + t)[|EscapedChar(c)|..] == t;
  }

  lemma ReadQuotedStep(c: char, t: string)
    ensures ReadQuoted(EscapedChar(c) + t)
            == match ReadQuoted(t) case None => None case Some((val, rest)) => Some(([c] + val, rest))
  {
    assert (EscapedChar(c) + t)[|EscapedChar(c)|..] == t;
  }

  lemma {:induction false} ReadsPlain(val: string, rest: string)
    requires !NeedsQuotes(val) && (rest == "" || IsBlank(rest[0]))
    ensures ReadPlain(EscapedChars(val) + rest) == (val, rest)
  {
    hide EscapedChar, NeedsQuotes, EscapedChars, ReadPlain;
    if val == "" {
      PlainEnds(rest);
      assert "" + rest == rest;
    } else {
      EscapedFirst(val);
      NoQuotesNeeded(val);
      ReadsPlain(val[1..], rest);
      ReadPlainStep(val[0], EscapedChars(val[1..]) + rest);
      assert EscapedChars(val) + rest == EscapedChar(val[0]) + (EscapedChars(val[1..]) + rest);
      assert [val[0]] + val[1..] == val;
    }
  }

  lemma PlainEnds(rest: string)
    requires rest == "" || IsBlank(rest[0])
    ensures ReadPlain(rest) == ("", rest) && EscapedChars("") == ""
  {
  }

  lemma NoQuotesNeeded(val: string)
    requires val != "" && !NeedsQuotes(val)
    ensures !IsBlank(val[0]) && !NeedsQuotes(val[1..])
  {
    hide PyIsSpace;
    BlankIsSpace(val[0]);
    assert forall i :: 0 <= i < |val| - 1 ==> val[1..][i] == val[i + 1];
  }

  lemma BlankIsSpace(c: char)
    ensures IsBlank(c) ==> PyIsSpace(c)
    ensures !IsBlank('\\')
  {
  }

  lemma {:induction false} ReadsQuoted(val: string, rest: string)
    ensures ReadQuoted(EscapedChars(val) + "'" + rest) == Some((val, rest))
  {
    hide EscapedChar;
    if val == "" {
      assert ("'" + rest)[1..] == rest && EscapedChars(val) + "'" + rest == "'" + rest;
    } else {
      hide EscapedChars, ReadQuoted;
      EscapedFirst(val);
      ReadsQuoted(val[1..], rest);
      ReadQuotedStep(val[0], EscapedChars(val[1..]) + "'" + rest);
      assert EscapedChars(val) + "'" + rest == EscapedChar(val[0]) + (EscapedChars(val[1..]) + "'" + rest);
      assert [val[0]] + val[1..] == val;
    }
  }

  predicate IsName(name: string) {
    name != "" && forall i :: 0 <= i < |name| ==> name[i] != '=' && !IsBlank(name[i])
  }

  lemma {:induction false} ReadsName(name: string, rest: string)
    requires forall i :: 0 <= i < |name| ==> name[i] != '=' && !IsBlank(name[i])
    ensures ReadName(name + "=" + rest) == (name, "=" + rest)
  {
    var s := name + "=" + rest;
    if name == "" {
      assert s == "=" + rest;
    } else {
      assert s[1..] == name[1..] + "=" + rest;
      ReadsName(name[1..], rest);
      assert [name[0]] + name[1..] == name;
    }
  }

  /** The value of a pair, once the keyword is read. */
  function ReadValue(text: string): Option<(string, string)> {
    if text != "" && text[0] == '\'' then ReadQuoted(text[1..]) else Some(ReadPlain(text))
  }

  lemma ReadPairIs(name: string, rest: string)
    requires IsName(name)
    ensures ReadPair(name + "=" + rest)
            == match ReadValue(SkipBlanks(rest))
               case None => None
               case Some((val, after)) => Some((name, val, after))
  {
    ReadsName(name, rest);
    assert ("=" + rest)[1..] == rest;
  }

  lemma ReadsValue(val: string, rest: string)
    requires val != "" || rest == ""
    requires rest == "" || IsBlank(rest[0])
    ensures SkipBlanks(Escaped(val) + rest) == Escaped(val) + rest
    ensures ReadValue(Escaped(val) + rest) == Some((val, rest))
  {
    hide PyIsSpace, EscapedChars, ReadQuoted, ReadPlain, NeedsQuotes;
    var s := Escaped(val) + rest;
    if NeedsQuotes(val) {
      assert s == "'" + (EscapedChars(val) + "'" + rest);
      assert s[1..] == EscapedChars(val) + "'" + rest;
      ReadsQuoted(val, rest);
    } else {
      ReadsPlain(val, rest);
      PlainFirst(val);
    }
  }

  lemma PlainFirst(val: string)
    requires !NeedsQuotes(val)
    ensures val == "" ==> EscapedChars(val) == ""
    ensures val != "" ==> EscapedChars(val) != "" && EscapedChars(val)[0] != '\'' && !IsBlank(EscapedChars(val)[0])
  {
    hide PyIsSpace;
    if val != "" {
      EscapedFirst(val);
      BlankIsSpace(val[0]);
    }
  }

  /** A pair printed is a pair read, if its value can be told from what follows. */
  lemma ParsesPair(name: string, val: string, rest: string)
    requires IsName(name) && (val != "" || rest == "") && (rest == "" || IsBlank(rest[0]))
    ensures Parse(Pair(name, val) + rest)
            == match Parse(rest) case None => None case Some(pairs) => Some([(name, val)] + pairs)
  {
    hide Escaped, ReadValue, ReadPair;
    var s := Pair(name, val) + rest;
    assert s == name + "=" + (Escaped(val) + rest);
    assert s[0] == name[0];
    ReadsValue(val, rest);
    ReadPairIs(name, Escaped(val) + rest);
  }

  lemma ParseBlank(s: string)
    ensures Parse(" " + s) == Parse(s)
  {
    assert (" " + s)[1..] == s;
  }

  /** An empty value swallows the pair that follows it. */
  lemma SwallowsNext(name: string, next: string, rest: string)
    requires IsName(name) && IsName(next) && next[0] != '\'' && next[0] != '\\'
    ensures
      var r := Parse(Pair(name, "") + " " + next + rest);
      r.Some? ==> r.value != [] && r.value[0].1 != ""
  {
    hide ReadPair, ReadValue;
    var s, text := Pair(name, "") + " " + next + rest, next + rest;
    assert s == name + "=" + (" " + text);
    assert s[0] == name[0];
    ReadPairIs(name, " " + text);
    assert (" " + text)[1..] == text && text[0] == next[0];
    ReadsSomething(text);
  }

  lemma ReadsSomething(text: string)
    requires text != "" && text[0] != '\'' && text[0] != '\\' && !IsBlank(text[0])
    ensures ReadValue(text).Some? && ReadValue(text).value.0 != ""
  {
  }

  /** A pair and the keyword after it. */
  lemma ParsesOrSwallows(name: string, val: string, next: string, rest: string)
    requires IsName(name) && IsName(next) && next[0] != '\'' && next[0] != '\\'
    ensures
      var r := Parse(Pair(name, val) + " " + (next + rest));
      if val == "" then r.Some? ==> r.value != [] && r.value[0].1 != ""
      else r == match Parse(next + rest) case None => None case Some(pairs) => Some([(name, val)] + pairs)
  {
    hide Parse, Pair, IsName;
    if val == "" {
      SwallowsNext(name, next, rest);
      assert Pair(name, val) + " " + (next + rest) == Pair(name, "") + " " + next + rest;
    } else {
      ParsesPair(name, val, " " + (next + rest));
      ParseBlank(next + rest);
      assert Pair(name, val) + " " + (next + rest) == Pair(name, val) + (" " + (next + rest));
    }
  }

  /** The four values come back from the connection string exactly when none but the last
      is empty. */
  lemma ConnectionRoundTrip(host: string, port: string, user: string, dbname: string)
    ensures Parse(Connection(host, port, user, dbname))
            == Some([("host", host), ("port", port), ("user", user), ("dbname", dbname)])
            <==> host != "" && port != "" && user != ""
  {
    hide Parse, Pair, Escaped;
    var d := Pair("dbname", dbname);
    var u := Pair("user", user) + " " + d;
    var p := Pair("port", port) + " " + u;
    assert d + "" == d;
    ParseNothing();
    ParsesPair("dbname", dbname, "");
    PairShape("dbname", dbname);
    ParsesOrSwallows("user", user, "dbname", "=" + Escaped(dbname));
    PairShape("user", user);
    assert u == "user" + ("=" + Escaped(user) + " " + d);
    ParsesOrSwallows("port", port, "user", "=" + Escaped(user) + " " + d);
    PairShape("port", port);
    assert p == "port" + ("=" + Escaped(port) + " " + u);
    ParsesOrSwallows("host", host, "port", "=" + Escaped(port) + " " + u);
    assert [("dbname", dbname)] + [] == [("dbname", dbname)];
    Parted(host, port, user, dbname, Parse(Connection(host, port, user, dbname)), Parse(p), Parse(u));
  }

  type Parsed = Option<seq<(string, string)>>

  /** What the parse of the whole is, from the parses of its ends. */
  lemma Parted(host: string, port: string, user: string, dbname: string, all: Parsed, p: Parsed, u: Parsed)
    requires Puts("user", user, u, Some([("dbname", dbname)]))
    requires Puts("port", port, p, u)
    requires Puts("host", host, all, p)
    ensures all == Some([("host", host), ("port", port), ("user", user), ("dbname", dbname)])
            <==> host != "" && port != "" && user != ""
  {
    var h, q, v, d := ("host", host), ("port", port), ("user", user), ("dbname", dbname);
    assert [h] + ([q] + ([v] + [d])) == [h, q, v, d];
    if all == Some([h, q, v, d]) {
      assert all.value[0] == h && all.value[1] == q && all.value[2] == v;
    }
  }

  ghost predicate Puts(name: string, val: string, r: Parsed, rest: Parsed) {
    if val == "" then r.Some? ==> r.value != [] && r.value[0].1 != ""
    else r == match rest case None => None case Some(pairs) => Some([(name, val)] + pairs)
  }

  lemma PairShape(name: string, val: string)
    ensures Pair(name, val) == name + ("=" + Escaped(val))
  {
  }

  lemma ParseNothing()
    ensures Parse("") == Some([])
  {
  }
}
