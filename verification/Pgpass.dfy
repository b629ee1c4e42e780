/** escape_pgpass_value and write_clone_pgpass of scripts/configure_spilo.py, against the format
    of 'The Password File', section 34.16 of the PostgreSQL 16 documentation. */
module Pgpass {
  import opened Wrappers

  // ---- Printing --------------------------------------------------------------------

  function EscapedChar(c: char): string {
    if c == '\\' || c == ':' then ['\\', c] else [c]
  }

  function Escaped(val: string): string {
    if val == "" then "" else Escaped(val[..|val| - 1]) + EscapedChar(val[|val| - 1])
  }

  method EscapeValue(val: string) returns (output: string)
    ensures output == Escaped(val)
  {
    output := "";
    for i := 0 to |val|
      invariant output == Escaped(val[..i])
    {
      assert val[..i + 1][..i] == val[..i];
      if val[i] == '\\' || val[i] == ':' {
        output := output + ['\\'];
      }
      output := output + [val[i]];
    }
    assert val[..|val|] == val;
  }

  /** The file: one line, the port as it is. */
  function Line(host: string, port: string, user: string, password: string): string {
    Escaped(host) + ":" + (port + ":" + ("*:" + (Escaped(user) + ":" + Escaped(password))))
  }

  method ClonePgpass(host: string, port: string, user: string, password: string) returns (file: string)
    ensures file == Line(host, port, user, password)
    ensures Fields(file) == [host, port, "*", user, password] <==> Plain(port)
  {
    hide Escaped, Fields, Plain;
    LineRoundTrip(host, port, user, password);
    var h := EscapeValue(host);
    var u := EscapeValue(user);
    var p := EscapeValue(password);
    file := h + ":" + port + ":" + "*" + ":" + u + ":" + p;
  }

  // ---- Reading -----------------------------------------------------------------------

  /** A field up to the next colon that is not escaped, and what follows the colon. */
  function Field(s: string): (r: (string, Option<string>))
    ensures r.1.Some? ==> |r.1.value| < |s|
  {
    if s == "" then ("", None)
    else if s[0] == ':' then ("", Some(s[1..]))
    else
      var at := if s[0] == '\\' && |s| > 1 then 1 else 0;
      var (field, rest) := Field(s[at + 1..]);
      ([s[at]] + field, rest)
  }

  function Fields(s: string): (r: seq<string>)
    ensures r != []
    decreases |s|
  {
    var (field, rest) := Field(s);
    match rest
    case None => [field]
    case Some(t) => [field] + Fields(t)
  }

  /** The first line of a file. */
  function FirstLine(file: string): (line: string)
    ensures '\n' !in line && line <= file
    ensures '\n' !in file ==> line == file
  {
    if file == "" || file[0] == '\n' then "" else [file[0]] + FirstLine(file[1..])
  }

  function StripReturns(line: string): (r: string)
    ensures r <= line && (r == "" || r[|r| - 1] != '\r')
    ensures line == "" || line[|line| - 1] != '\r' ==> r == line
  {
    if line != "" && line[|line| - 1] == '\r' then StripReturns(line[..|line| - 1]) else line
  }

  /** What the first line of a password file says; None for a comment. */
  function Read(file: string): Option<seq<string>> {
    var line := StripReturns(FirstLine(file));
    if line != "" && line[0] == '#' then None else Some(Fields(line))
  }

  // ---- The round trip --------------------------------------------------------------------

  lemma {:induction false} EscapedFirst(val: string)
    requires val != ""
    ensures Escaped(val) == EscapedChar(val[0]) + Escaped(val[1..])
  {
    hide EscapedChar;
    var n := |val| - 1;
    if n == 0 {
      assert val[..0] == "" && val[1..] == "";
    } else {
      EscapedFirst(val[..n]);
      assert val[1..][..n - 1] == val[..n][1..] && val[1..][n - 1] == val[n];
      assert EscapedChar(val[0]) + Escaped(val[..n][1..]) + EscapedChar(val[n])
             == EscapedChar(val[0]) + (Escaped(val[..n][1..]) + EscapedChar(val[n]));
    }
  }

  lemma FieldStep(c: char, t: string)
    ensures Field(EscapedChar(c) + t) == ([c] + Field(t).0, Field(t).1)
  {
    assert (EscapedChar(c) + t)[|EscapedChar(c)|..] == t;
  }

  lemma FieldEnds(rest: string)
    ensures Field("") == ("", None) && Field(":" + rest) == ("", Some(rest)) && Escaped("") == ""
  {
    assert (":" + rest)[1..] == rest;
  }

  /** An escaped value before a colon or the end is read as one field. */
  lemma {:induction false} ReadsField(val: string, rest: string)
    ensures Field(Escaped(val) + ":" + rest) == (val, Some(rest))
    ensures Field(Escaped(val)) == (val, None)
  {
    hide EscapedChar, Escaped, Field;
    if val == "" {
      FieldEnds(rest);
      assert "" + ":" + rest == ":" + rest;
    } else {
      EscapedFirst(val);
      ReadsField(val[1..], rest);
      FieldStep(val[0], Escaped(val[1..]) + ":" + rest);
      FieldStep(val[0], Escaped(val[1..]));
      assert Escaped(val) + ":" + rest == EscapedChar(val[0]) + (Escaped(val[1..]) + ":" + rest);
      assert [val[0]] + val[1..] == val;
    }
  }

  /** Splitting the line on its unescaped colons, whatever the port. */
  lemma FieldsOfLine(host: string, port: string, user: string, password: string)
    ensures Fields(Line(host, port, user, password))
            == [host] + Fields(port + ":" + ("*:" + (Escaped(user) + ":" + Escaped(password))))
    ensures Fields("*:" + (Escaped(user) + ":" + Escaped(password))) == ["*", user, password]
  {
    hide Escaped, Field;
    var up := Escaped(user) + ":" + Escaped(password);
    ReadsField(password, "");
    ReadsField(user, Escaped(password));
    ReadsField(host, port + ":" + ("*:" + up));
    EscapedStar();
    ReadsField("*", up);
    assert Escaped("*") + ":" + up == "*:" + up;
    assert Fields(up) == [user] + [password];
  }

  lemma EscapedStar()
    ensures Escaped("*") == "*"
  {
    assert "*"[..0] == "";
  }

  predicate Special(c: char) {
    c == ':' || c == '\\'
  }

  predicate Plain(s: string) {
    forall i :: 0 <= i < |s| ==> !Special(s[i])
  }

  function Backslashes(k: nat): (s: string)
    ensures |s| == k
  {
    if k == 0 then "" else ['\\'] + Backslashes(k - 1)
  }

  lemma {:induction false} PlainIsEscaped(s: string)
    requires Plain(s)
    ensures Escaped(s) == s
  {
    if s != "" {
      PlainIsEscaped(s[..|s| - 1]);
      assert s[..|s| - 1] + [s[|s| - 1]] == s;
    }
  }

  lemma {:induction false} BackslashesLast(k: nat, s: string)
    ensures Backslashes(k) + (['\\'] + s) == Backslashes(k + 1) + s
  {
    if k > 0 {
      BackslashesLast(k - 1, s);
      assert Backslashes(k) + (['\\'] + s) == ['\\'] + (Backslashes(k - 1) + (['\\'] + s));
      assert Backslashes(k + 1) + s == ['\\'] + (Backslashes(k) + s);
    } else {
      assert Backslashes(1) == ['\\'] + Backslashes(0);
    }
  }

  lemma SameHeadAndTail(a: char, x: string, b: char, y: string)
    ensures [a] + x == [b] + y <==> a == b && x == y
  {
    assert ([a] + x)[1..] == x && ([b] + y)[1..] == y;
    assert ([a] + x)[0] == a && ([b] + y)[0] == b;
  }

  lemma PlainTail(q: string)
    requires q != ""
    ensures Plain(q) <==> !Special(q[0]) && Plain(q[1..])
  {
    assert forall i :: 0 < i < |q| ==> q[i] == q[1..][i - 1];
  }

  /** An unescaped value is read as itself, and not as itself after backslashes, exactly
      when nothing in it needed escaping. */
  lemma {:induction false} ReadsOnlyPlain(q: string, rest: string, k: nat)
    ensures Field(q + ":" + rest).0 == Backslashes(k) + q <==> k == 0 && Plain(q)
    decreases |q|
  {
    hide Plain, Backslashes, Field;
    if q == "" {
      FieldEnds(rest);
      assert q + ":" + rest == ":" + rest && Backslashes(k) + q == Backslashes(k);
      NothingPlain();
    } else {
      PlainTail(q);
      if q[0] == '\\' {
        if |q| > 1 {
          ReadsOnlyPlain(q[2..], rest, k + 1);
        }
        ReadsBackslash(q, rest, k);
      } else if q[0] == ':' {
        ReadsColon(q, rest);
        assert |Backslashes(k) + q| > 0;
      } else {
        ReadsOnlyPlain(q[1..], rest, 0);
        ReadsOrdinary(q, rest, k);
      }
    }
  }

  lemma ReadsColon(q: string, rest: string)
    requires q != "" && q[0] == ':'
    ensures Field(q + ":" + rest).0 == ""
  {
  }

  lemma ReadsBackslash(q: string, rest: string, k: nat)
    requires q != "" && q[0] == '\\'
    requires |q| > 1 ==> Field(q[2..] + ":" + rest).0 != Backslashes(k + 1) + q[2..]
    ensures Field(q + ":" + rest).0 != Backslashes(k) + q
  {
    hide Plain, Backslashes;
    var s := q + ":" + rest;
    assert s[0] == q[0] && |s| > 1;
    HeadOf(k, q[1..]);
    assert q == ['\\'] + q[1..];
    if |q| == 1 {
      assert s[1] == ':';
      SameHeadAndTail(':', Field(s[2..]).0, '\\', Backslashes(k) + q[1..]);
    } else {
      var t := q[2..];
      assert s[1] == q[1] && s[2..] == t + ":" + rest;
      SameHeadAndTail(q[1], Field(s[2..]).0, '\\', Backslashes(k) + q[1..]);
      BackslashesLast(k, t);
      assert q[1..] == [q[1]] + t;
    }
  }

  lemma HeadOf(k: nat, t: string)
    ensures Backslashes(k) + (['\\'] + t) == ['\\'] + (Backslashes(k) + t)
  {
    BackslashesLast(k, t);
    assert Backslashes(k + 1) == ['\\'] + Backslashes(k);
    assert ['\\'] + Backslashes(k) + t == ['\\'] + (Backslashes(k) + t);
  }

  lemma ReadsOrdinary(q: string, rest: string, k: nat)
    requires q != "" && !Special(q[0])
    requires Field(q[1..] + ":" + rest).0 == Backslashes(0) + q[1..] <==> Plain(q[1..])
    ensures Field(q + ":" + rest).0 == Backslashes(k) + q <==> k == 0 && Plain(q[1..])
  {
    hide Plain;
    var s := q + ":" + rest;
    assert s[0] == q[0] && s[1..] == q[1..] + ":" + rest && q == [q[0]] + q[1..];
    assert Backslashes(0) + q[1..] == q[1..];
    if k == 0 {
      SameHeadAndTail(q[0], Field(s[1..]).0, q[0], q[1..]);
      assert Backslashes(0) + q == q;
    } else {
      SameHeadAndTail(q[0], Field(s[1..]).0, '\\', Backslashes(k - 1) + q);
      assert Backslashes(k) + q == ['\\'] + (Backslashes(k - 1) + q);
    }
  }

  lemma NothingPlain()
    ensures Plain("")
  {
  }

  /** The five fields come back from the line exactly when the port needed no escaping. */
  lemma LineRoundTrip(host: string, port: string, user: string, password: string)
    ensures Fields(Line(host, port, user, password)) == [host, port, "*", user, password] <==> Plain(port)
  {
    hide Plain, Field, Escaped;
    var rest := "*:" + (Escaped(user) + ":" + Escaped(password));
    FieldsOfLine(host, port, user, password);
    ReadsOnlyPlain(port, rest, 0);
    assert Backslashes(0) + port == port;
    var tail := Fields(port + ":" + rest);
    assert tail[0] == Field(port + ":" + rest).0;
    assert ([host] + tail)[1] == tail[0];
    if Plain(port) {
      PlainIsEscaped(port);
      ReadsField(port, rest);
      assert [host] + ([port] + ["*", user, password]) == [host, port, "*", user, password];
    }
  }

  // ---- Lines of a file ------------------------------------------------------------------------

  /** No field holds a character the line does not have. */
  lemma {:induction false} FieldsHold(s: string, c: char)
    requires c !in s
    ensures forall i :: 0 <= i < |Fields(s)| ==> c !in Fields(s)[i]
    decreases |s|
  {
    FieldHolds(s, c);
    if Field(s).1.Some? {
      FieldsHold(Field(s).1.value, c);
    }
  }

  lemma {:induction false} FieldHolds(s: string, c: char)
    requires c !in s
    ensures c !in Field(s).0 && (Field(s).1.Some? ==> c !in Field(s).1.value)
    decreases |s|
  {
    if s != "" && s[0] != ':' {
      var at := if s[0] == '\\' && |s| > 1 then 1 else 0;
      FieldHolds(s[at + 1..], c);
    }
  }

  /** The last field ends where the line does. */
  lemma {:induction false} LastFieldEnds(s: string)
    ensures
      var last := Fields(s)[|Fields(s)| - 1];
      last == "" || (s != "" && last[|last| - 1] == s[|s| - 1])
    decreases |s|
  {
    hide Field;
    LastOfField(s);
    if Field(s).1.Some? {
      LastFieldEnds(Field(s).1.value);
      LastOfMore(Field(s).0, Fields(Field(s).1.value));
    }
  }

  lemma LastOfMore(field: string, fields: seq<string>)
    requires fields != []
    ensures ([field] + fields)[|[field] + fields| - 1] == fields[|fields| - 1]
  {
  }

  lemma {:induction false} LastOfField(s: string)
    ensures
      var (field, rest) := Field(s);
      match rest
      case None => field == "" || (s != "" && field[|field| - 1] == s[|s| - 1])
      case Some(t) => s != "" && (t == "" || t[|t| - 1] == s[|s| - 1])
    decreases |s|
  {
    if s != "" && s[0] != ':' {
      var at := if s[0] == '\\' && |s| > 1 then 1 else 0;
      LastOfField(s[at + 1..]);
    }
  }

  lemma {:induction false} EscapedHolds(val: string, c: char)
    requires !Special(c)
    ensures c in Escaped(val) <==> c in val
  {
    if val != "" {
      EscapedHolds(val[..|val| - 1], c);
      assert val == val[..|val| - 1] + [val[|val| - 1]];
    }
  }

  lemma EscapedEnds(val: string)
    requires val != ""
    ensures Escaped(val) != "" && Escaped(val)[|Escaped(val)| - 1] == val[|val| - 1]
    ensures Escaped(val)[0] == if Special(val[0]) then '\\' else val[0]
  {
    EscapedFirst(val);
  }

  /** Where the line begins and ends, and whether it is cut. */
  lemma LineShape(host: string, port: string, user: string, password: string)
    ensures
      var line := Line(host, port, user, password);
      && line != ""
      && (line[0] == '#' <==> host != "" && host[0] == '#')
      && (line[|line| - 1] == '\r' <==> password != "" && password[|password| - 1] == '\r')
      && ('\n' in line <==> '\n' in host || '\n' in port || '\n' in user || '\n' in password)
  {
    hide Escaped;
    EscapedHolds(host, '\n');
    EscapedHolds(user, '\n');
    EscapedHolds(password, '\n');
    if host != "" {
      EscapedEnds(host);
    }
    if password != "" {
      EscapedEnds(password);
    }
    FieldEnds("");
  }

  /** What a client reads from the password file: the five fields, exactly when the port
      needs no escaping, the line is no comment, and no end of line cuts it short. */
  lemma FileRoundTrip(host: string, port: string, user: string, password: string)
    ensures
      var file := Line(host, port, user, password);
      Read(file) == Some([host, port, "*", user, password])
      <==> && Plain(port) && (host == "" || host[0] != '#')
           && '\n' !in host && '\n' !in port && '\n' !in user && '\n' !in password
           && (password == "" || password[|password| - 1] != '\r')
  {
    hide Plain, Line, Fields, FirstLine, StripReturns;
    var file, fields := Line(host, port, user, password), [host, port, "*", user, password];
    var line := StripReturns(FirstLine(file));
    LineRoundTrip(host, port, user, password);
    LineShape(host, port, user, password);
    FieldsHold(line, '\n');
    LastFieldEnds(line);
    assert fields[0] == host && fields[1] == port && fields[3] == user && fields[4] == password;
  }
}
