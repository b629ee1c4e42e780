/** scripts/pgbouncer/merge_parameters.sh: the awk program that merges parameters
    into the [pgbouncer] section of an ini file, line by line. */
module PgbouncerMerge {
  import opened Wrappers
  import opened Strings

  type Params = map<string, string>

  // ---- How lines are read ----------------------------------------------------

  /** A section header, /^[[:space:]]*\[.*\][[:space:]]*$/ */
  predicate IsHeader(line: string) {
    var t := Strip(line, IsBlank);
    |t| >= 2 && t[0] == '[' && t[|t| - 1] == ']'
  }

  predicate IsPgbouncerHeader(line: string) {
    Strip(line, IsBlank) == "[pgbouncer]"
  }

  predicate IsWordChar(c: char) {
    'A' <= c <= 'Z' || 'a' <= c <= 'z' || '0' <= c <= '9' || c == '_'
  }

  /** A key that a setting line can have, [A-Za-z0-9_]+ */
  predicate IsIdent(k: string) {
    k != "" && forall i :: 0 <= i < |k| ==> IsWordChar(k[i])
  }

  /** The longest prefix of word characters. */
  function Word(s: string): (w: string)
    ensures w <= s && forall i :: 0 <= i < |w| ==> IsWordChar(w[i])
  {
    if s != "" && IsWordChar(s[0]) then [s[0]] + Word(s[1..]) else ""
  }

  /** Key and value of an uncommented setting: a word, blanks, `=`. */
  function Setting(line: string): Option<(string, string)> {
    var t := StripLeft(line, IsBlank);
    if t != "" && (t[0] == '#' || t[0] == ';') then None
    else
      var key := Word(t);
      var rest := StripLeft(t[|key|..], IsBlank);
      if key != "" && rest != "" && rest[0] == '=' then Some((key, Strip(rest[1..], IsBlank))) else None
  }

  function Printed(key: string, value: string): string {
    key + " = " + value
  }

  // ---- The merge on values -----------------------------------------------------

  /** The state of the awk program between two lines of the ini file. */
  datatype State = State(inSection: bool, seen: bool, used: set<string>)

  const START := State(false, false, {})

  /** flush(): the parameters not used yet, in the order awk enumerates them. */
  function Flush(params: Params, order: seq<string>, used: set<string>): seq<string>
    requires forall k :: k in order ==> k in params
  {
    if order == [] then []
    else
      (if order[0] in used then [] else [Printed(order[0], params[order[0]])])
      + Flush(params, order[1..], used)
  }

  /** order enumerates the keys of params, each once. */
  ghost predicate Enumerates(order: seq<string>, params: Params) {
    && (forall k :: k in order <==> k in params)
    && (forall i, j :: 0 <= i < j < |order| ==> order[i] != order[j])
  }

  /** The parameter a line inside the section sets, if it is one of ours. */
  predicate Overrides(params: Params, line: string) {
    Setting(line).Some? && Setting(line).value.0 in params
  }

  /** What one line of the ini file prints. */
  function LineOut(params: Params, order: seq<string>, line: string, s: State): seq<string>
    requires forall k :: k in order ==> k in params
  {
    if IsHeader(line) then (if s.inSection then Flush(params, order, s.used) else []) + [line]
    else if s.inSection && Overrides(params, line) then
      var key := Setting(line).value.0;
      if key in s.used then [] else [Printed(key, params[key])]
    else [line]
  }

  function LineState(params: Params, line: string, s: State): State {
    if IsHeader(line) then
      var inSection := IsPgbouncerHeader(line);
      State(inSection, s.seen || inSection, if s.inSection then s.used + params.Keys else s.used)
    else if s.inSection && Overrides(params, line) then s.(used := s.used + {Setting(line).value.0})
    else s
  }

  /** What END prints. */
  function EndOut(params: Params, order: seq<string>, s: State): seq<string>
    requires forall k :: k in order ==> k in params
  {
    if s.inSection then Flush(params, order, s.used)
    else if !s.seen then ["", "[pgbouncer]"] + Flush(params, order, s.used)
    else []
  }

  function Merged(params: Params, order: seq<string>, lines: seq<string>, s: State): seq<string>
    requires forall k :: k in order ==> k in params
  {
    if lines == [] then EndOut(params, order, s)
    else LineOut(params, order, lines[0], s) + Merged(params, order, lines[1..], LineState(params, lines[0], s))
  }

  // ---- The awk program -----------------------------------------------------------

  /** The parameter file after its lines: key, tab, value; the last one counts. */
  function ReadParams(lines: seq<string>): Params {
    if lines == [] then map[]
    else
      var line := lines[|lines| - 1];
      var i := IndexOf(line, '\t');
      var before := ReadParams(lines[..|lines| - 1]);
      if i < |line| then before[line[..i] := line[i + 1..]] else before["" := line]
  }

  /** A line gives key and value with a tab in between; one without a tab is the value of the
      empty key. */
  predicate Gives(line: string, k: string, v: string) {
    (line == k + "\t" + v && '\t' !in k) || (k == "" && line == v && '\t' !in v)
  }

  /** The last line that gives the key gives this value. */
  ghost predicate GivenLast(lines: seq<string>, k: string, v: string) {
    exists i :: 0 <= i < |lines| && Gives(lines[i], k, v) && forall j, w :: i < j < |lines| ==> !Gives(lines[j], k, w)
  }

  lemma GivesParts(line: string, k: string, v: string)
    ensures
      var i := IndexOf(line, '\t');
      Gives(line, k, v) <==> (k, v) == if i < |line| then (line[..i], line[i + 1..]) else ("", line)
  {
    var i := IndexOf(line, '\t');
    if i < |line| {
      assert line == line[..i] + "\t" + line[i + 1..];
    }
    if line == k + "\t" + v && '\t' !in k {
      assert line[|k|] == '\t' && line[..|k|] == k && line[|k| + 1..] == v;
      assert forall j :: 0 <= j < |k| ==> line[j] == k[j];
    }
  }

  lemma GivenSnoc(lines: seq<string>, line: string, k: string, v: string)
    ensures GivenLast(lines + [line], k, v)
            <==> Gives(line, k, v) || (GivenLast(lines, k, v) && forall w :: !Gives(line, k, w))
  {
    var all := lines + [line];
    assert all[|lines|] == line && forall i :: 0 <= i < |lines| ==> all[i] == lines[i];
    if GivenLast(lines, k, v) && forall w :: !Gives(line, k, w) {
      var i :| 0 <= i < |lines| && Gives(lines[i], k, v) && forall j, w :: i < j < |lines| ==> !Gives(lines[j], k, w);
      assert Gives(all[i], k, v);
    }
    if GivenLast(all, k, v) {
      var i :| 0 <= i < |all| && Gives(all[i], k, v) && forall j, w :: i < j < |all| ==> !Gives(all[j], k, w);
      if i < |lines| {
        assert forall w :: !Gives(all[|lines|], k, w);
        assert Gives(lines[i], k, v);
      }
    }
  }

  /** What is read is what the last line for each key gives. */
  lemma {:induction false} ReadParamsIff(lines: seq<string>, k: string, v: string)
    ensures k in ReadParams(lines) && ReadParams(lines)[k] == v <==> GivenLast(lines, k, v)
  {
    hide GivenLast, Gives;
    if lines == [] {
      NoneGiven(k, v);
    } else {
      var rest, line := lines[..|lines| - 1], lines[|lines| - 1];
      ReadParamsIff(rest, k, v);
      assert lines == rest + [line];
      GivenSnoc(rest, line, k, v);
      GivesParts(line, k, v);
      var i := IndexOf(line, '\t');
      var given := if i < |line| then (line[..i], line[i + 1..]) else ("", line);
      GivesParts(line, given.0, given.1);
      forall w
        ensures Gives(line, k, w) <==> (k, w) == given
      {
        GivesParts(line, k, w);
      }
    }
  }

  lemma NoneGiven(k: string, v: string)
    ensures !GivenLast([], k, v)
  {
  }

  method Load(lines: seq<string>) returns (params: Params)
    ensures params == ReadParams(lines)
    ensures forall k, v :: k in params && params[k] == v <==> GivenLast(lines, k, v)
  {
    forall k, v
      ensures k in ReadParams(lines) && ReadParams(lines)[k] == v <==> GivenLast(lines, k, v)
    {
      ReadParamsIff(lines, k, v);
    }
    params := map[];
    for n := 0 to |lines|
      invariant params == ReadParams(lines[..n])
    {
      var i := IndexOf(lines[n], '\t');
      assert lines[..n + 1][..n] == lines[..n];
      if i < |lines[n]| {
        params := params[lines[n][..i] := lines[n][i + 1..]];
      } else {
        params := params["" := lines[n]];
      }
    }
    assert lines[..|lines|] == lines;
  }

  method RunFlush(params: Params, order: seq<string>, used: set<string>) returns (out: seq<string>, nowUsed: set<string>)
    requires Enumerates(order, params)
    ensures out == Flush(params, order, used) && nowUsed == used + params.Keys
  {
    hide Printed, Flush;
    assert order[0..] == order;
    out, nowUsed := [], used;
    for i := 0 to |order|
      invariant out + Flush(params, order[i..], used) == Flush(params, order, used)
      invariant forall k :: k in nowUsed <==> k in used || k in order[..i]
    {
      var k := order[i];
      FlushFirst(params, order[i..], used);
      assert order[i..][1..] == order[i + 1..];
      assert order[..i + 1] == order[..i] + [k];
      assert k !in order[..i];
      if k !in nowUsed {
        out := out + [Printed(k, params[k])];
        nowUsed := nowUsed + {k};
      }
    }
    assert order[..|order|] == order;
    FlushDone(params, used, order[|order|..]);
  }

  lemma FlushDone(params: Params, used: set<string>, rest: seq<string>)
    requires rest == []
    ensures Flush(params, rest, used) == []
  {
  }

  lemma FlushFirst(params: Params, order: seq<string>, used: set<string>)
    requires order != [] && forall k :: k in order ==> k in params
    ensures Flush(params, order, used)
            == (if order[0] in used then [] else [Printed(order[0], params[order[0]])]) + Flush(params, order[1..], used)
  {
  }

  /** The rules for one line of the ini file. */
  method RunLine(params: Params, order: seq<string>, line: string, inSection: bool, seen: bool, used: set<string>)
    returns (out: seq<string>, nowIn: bool, nowSeen: bool, nowUsed: set<string>)
    requires Enumerates(order, params)
    ensures out == LineOut(params, order, line, State(inSection, seen, used))
    ensures State(nowIn, nowSeen, nowUsed) == LineState(params, line, State(inSection, seen, used))
  {
    out, nowIn, nowSeen, nowUsed := [], inSection, seen, used;
    if IsHeader(line) {
      if inSection {
        out, nowUsed := RunFlush(params, order, used);
      }
      nowIn := IsPgbouncerHeader(line);
      nowSeen := seen || nowIn;
      out := out + [line];
      return;
    }
    if inSection {
      var setting := Setting(line);
      if setting.Some? && setting.value.0 in params {
        var key := setting.value.0;
        if key !in used {
          out := [Printed(key, params[key])];
          nowUsed := used + {key};
        }
        return;
      }
    }
    out := [line];
  }

  /** The main loop over the ini file, and END. */
  method Merge(params: Params, order: seq<string>, lines: seq<string>) returns (out: seq<string>)
    requires Enumerates(order, params)
    ensures out == Merged(params, order, lines, START)
  {
    hide LineOut, LineState;
    out := [];
    var inSection, seen, used := false, false, {};
    for n := 0 to |lines|
      invariant out + Merged(params, order, lines[n..], State(inSection, seen, used)) == Merged(params, order, lines, START)
    {
      assert lines[n..][1..] == lines[n + 1..];
      var printed;
      printed, inSection, seen, used := RunLine(params, order, lines[n], inSection, seen, used);
      out := out + printed;
    }
    var flushed := [];
    if inSection {
      flushed, used := RunFlush(params, order, used);
    } else if !seen {
      flushed, used := RunFlush(params, order, used);
      flushed := ["", "[pgbouncer]"] + flushed;
    }
    out := out + flushed;
  }

  /** The script: without parameters the file is left alone. */
  method MergeParameters(paramLines: seq<string>, order: seq<string>, ini: seq<string>) returns (out: seq<string>)
    requires Enumerates(order, ReadParams(paramLines))
    ensures out == if paramLines == [] then ini else Merged(ReadParams(paramLines), order, ini, START)
  {
    hide ReadParams, Merged;
    if paramLines == [] {
      return ini;
    }
    var params := Load(paramLines);
    out := Merge(params, order, ini);
  }
}
