/** What the ini merge means: it overrides the settings of the [pgbouncer] sections
    as one would override a map, and nothing else. */
module PgbouncerTheorems {
  import opened Wrappers
  import opened Strings
  import opened PgbouncerMerge

  /** The values given to key k inside [pgbouncer] sections, in order. */
  function Values(lines: seq<string>, inSection: bool, k: string): seq<string> {
    if lines == [] then []
    else
      var line, rest := lines[0], lines[1..];
      if IsHeader(line) then Values(rest, IsPgbouncerHeader(line), k)
      else if inSection && Setting(line).Some? && Setting(line).value.0 == k then
        [Setting(line).value.1] + Values(rest, inSection, k)
      else Values(rest, inSection, k)
  }

  /** The effective value of k: the last one set. */
  function Effective(lines: seq<string>, k: string): Option<string> {
    var values := Values(lines, false, k);
    if values == [] then None else Some(values[|values| - 1])
  }

  /** The lines that are not settings of a parameter inside a section. */
  function OtherLines(params: Params, lines: seq<string>, inSection: bool): seq<string> {
    if lines == [] then []
    else
      var line, rest := lines[0], lines[1..];
      if IsHeader(line) then [line] + OtherLines(params, rest, IsPgbouncerHeader(line))
      else if inSection && Overrides(params, line) then OtherLines(params, rest, inSection)
      else [line] + OtherLines(params, rest, inSection)
  }

  predicate AllIdents(params: Params) {
    forall k :: k in params ==> IsIdent(k)
  }

  // ---- Printed lines are settings --------------------------------------------------

  lemma {:induction false} WordOf(k: string, rest: string)
    requires forall i :: 0 <= i < |k| ==> IsWordChar(k[i])
    requires rest == "" || !IsWordChar(rest[0])
    ensures Word(k + rest) == k
  {
    if k == "" {
      assert k + rest == rest;
    } else {
      assert (k + rest)[1..] == k[1..] + rest;
      WordOf(k[1..], rest);
      assert [k[0]] + k[1..] == k;
    }
  }

  lemma PrintedIsSetting(k: string, v: string)
    requires IsIdent(k)
    ensures !IsHeader(Printed(k, v))
    ensures Setting(Printed(k, v)) == Some((k, Strip(v, IsBlank)))
  {
    hide Strip, StripLeft, StripRight, Word;
    var line, rest := Printed(k, v), " = " + v;
    assert line == k + rest;
    assert line[0] == k[0];
    NoHeader(line);
    StripNothing(line);
    WordOf(k, rest);
    assert line[|k|..] == rest;
    AfterKey(v);
  }

  lemma StripNothing(s: string)
    requires s != "" && !IsBlank(s[0])
    ensures StripLeft(s, IsBlank) == s
  {
  }

  lemma NoHeader(line: string)
    requires line != "" && IsWordChar(line[0])
    ensures !IsHeader(line)
  {
    StripNothing(line);
    StripRightKeepsHead(line);
  }

  /** What follows the key is a blank, `=`, and the value between blanks. */
  lemma AfterKey(v: string)
    ensures
      var r := StripLeft(" = " + v, IsBlank);
      r != "" && r[0] == '=' && Strip(r[1..], IsBlank) == Strip(v, IsBlank)
  {
    var rest := " = " + v;
    assert rest[1..] == "= " + v;
    var r := rest[1..];
    StripNothing(r);
    assert StripLeft(rest, IsBlank) == r;
    assert r[1..] == " " + v;
    assert (" " + v)[1..] == v;
    assert StripLeft(" " + v, IsBlank) == StripLeft(v, IsBlank);
  }

  /** Stripping the right end keeps a first character that is no blank. */
  lemma {:induction false} StripRightKeepsHead(s: string)
    requires s != "" && !IsBlank(s[0])
    ensures StripRight(s, IsBlank) != "" && StripRight(s, IsBlank)[0] == s[0]
  {
    if IsBlank(s[|s| - 1]) {
      StripRightKeepsHead(s[..|s| - 1]);
    }
  }

  /** Names are not checked, so `x =` is printed as a setting of x, and `[x` with a fitting
      value as the header of a section. Printed in this order the parameters do no harm: up to
      the first that prints as a header, names that are no words print as no settings, and after
      it come no words. */
  predicate Orderly(params: Params, order: seq<string>)
    requires forall k :: k in order ==> k in params
  {
    order == [] ||
    if IsHeader(Printed(order[0], params[order[0]])) then forall k :: k in order[1..] ==> !IsIdent(k)
    else
      && (IsIdent(order[0]) || Setting(Printed(order[0], params[order[0]])).None?)
      && Orderly(params, order[1..])
  }

  lemma {:induction false} IdentsOrderly(params: Params, order: seq<string>)
    requires forall k :: k in order ==> k in params && IsIdent(k)
    ensures Orderly(params, order)
  {
    if order != [] {
      PrintedIsSetting(order[0], params[order[0]]);
      IdentsOrderly(params, order[1..]);
    }
  }

  /** A key that is no word never takes effect, whatever the file says. */
  lemma {:induction false} OnlyIdentsTakeEffect(lines: seq<string>, inSection: bool, k: string)
    requires !IsIdent(k)
    ensures Values(lines, inSection, k) == []
  {
    if lines != [] {
      OnlyIdentsTakeEffect(lines[1..], IsPgbouncerHeader(lines[0]), k);
      OnlyIdentsTakeEffect(lines[1..], inSection, k);
    }
  }

  // ---- What a flush adds ---------------------------------------------------------------

  /** Names that are no words are used all at once, with all others. */
  predicate UsedTogether(order: seq<string>, used: set<string>) {
    (forall k :: k in order && k in used ==> IsIdent(k)) || (forall k :: k in order ==> k in used)
  }

  /** A flush comes before a header or at the end. */
  predicate Closes(tail: seq<string>) {
    tail == [] || IsHeader(tail[0])
  }

  lemma {:induction false} FlushValues(params: Params, order: seq<string>, used: set<string>, tail: seq<string>, k: string)
    requires (forall j :: j in order ==> j in params) && Orderly(params, order) && UsedTogether(order, used) && Closes(tail)
    requires forall i, j :: 0 <= i < j < |order| ==> order[i] != order[j]
    ensures Values(Flush(params, order, used) + tail, true, k)
            == (if k in order && k !in used && IsIdent(k) then [Strip(params[k], IsBlank)] else []) + Values(tail, true, k)
  {
    hide Setting, IsHeader, Printed, Flush, Values, Strip, IsPgbouncerHeader, IsIdent;
    if order == [] {
      FlushNothing(params, used);
      assert [] + tail == tail;
    } else {
      var o, rest := order[0], Flush(params, order[1..], used);
      FlushFirst(params, order, used);
      assert k in order <==> k == o || k in order[1..];
      assert o !in order[1..];
      if o in used && !IsIdent(o) {
        FlushAllUsed(params, order, used);
        assert [] + tail == tail;
      } else if IsHeader(Printed(o, params[o])) {
        if IsIdent(o) {
          PrintedIsSetting(o, params[o]);
        }
        PrintedOpensNothing(o, params[o]);
        assert Flush(params, order, used) + tail == [Printed(o, params[o])] + (rest + tail);
        ValuesCons(Printed(o, params[o]), rest + tail, true, k);
        FlushOutside(params, order[1..], used, tail, k);
      } else {
        FlushValues(params, order[1..], used, tail, k);
        if o in used {
          assert Flush(params, order, used) == rest;
        } else {
          if IsIdent(o) {
            PrintedIsSetting(o, params[o]);
          }
          assert Flush(params, order, used) + tail == [Printed(o, params[o])] + (rest + tail);
          ValuesCons(Printed(o, params[o]), rest + tail, true, k);
        }
      }
    }
  }

  /** Behind a header of another section nothing printed counts. */
  lemma {:induction false} FlushOutside(params: Params, order: seq<string>, used: set<string>, tail: seq<string>, k: string)
    requires (forall j :: j in order ==> j in params) && Closes(tail)
    ensures Values(Flush(params, order, used) + tail, false, k) == Values(tail, true, k)
  {
    hide Setting, IsHeader, Printed, Flush, IsPgbouncerHeader;
    if order == [] {
      FlushNothing(params, used);
      assert [] + tail == tail;
    } else {
      var o, rest := order[0], Flush(params, order[1..], used);
      FlushFirst(params, order, used);
      FlushOutside(params, order[1..], used, tail, k);
      hide Values;
      if o in used {
        assert Flush(params, order, used) == rest;
      } else {
        PrintedOpensNothing(o, params[o]);
        assert Flush(params, order, used) + tail == [Printed(o, params[o])] + (rest + tail);
        ValuesCons(Printed(o, params[o]), rest + tail, false, k);
      }
    }
  }

  lemma FlushNothing(params: Params, used: set<string>)
    ensures Flush(params, [], used) == []
  {
  }

  /** The lines a flush prints for names that are no words. */
  function Inert(params: Params, order: seq<string>, used: set<string>): seq<string>
    requires forall k :: k in order ==> k in params
  {
    if order == [] then []
    else
      (if order[0] in used || IsIdent(order[0]) then [] else [Printed(order[0], params[order[0]])])
      + Inert(params, order[1..], used)
  }

  lemma {:induction false} FlushOthers(params: Params, order: seq<string>, used: set<string>, tail: seq<string>)
    requires (forall j :: j in order ==> j in params) && Orderly(params, order) && UsedTogether(order, used) && Closes(tail)
    ensures OtherLines(params, Flush(params, order, used) + tail, true)
            == Inert(params, order, used) + OtherLines(params, tail, true)
  {
    hide Setting, IsHeader, Printed, Flush, IsIdent, OtherLines, IsPgbouncerHeader, Inert, Closes;
    if order == [] {
      FlushNothing(params, used);
      InertNone(params, order, used);
      assert [] + tail == tail;
    } else {
      var o, rest := order[0], Flush(params, order[1..], used);
      FlushFirst(params, order, used);
      InertFirst(params, order, used);
      if o in used && !IsIdent(o) {
        FlushAllUsed(params, order, used);
        InertNone(params, order, used);
        assert [] + tail == tail;
      } else if IsHeader(Printed(o, params[o])) {
        FlushHeader(params, order, used, tail);
      } else {
        FlushOthers(params, order[1..], used, tail);
        if o in used {
          assert Flush(params, order, used) == rest;
        } else {
          OthersPrinted(params, o, rest + tail);
          assert Flush(params, order, used) + tail == [Printed(o, params[o])] + (rest + tail);
        }
      }
    }
  }

  lemma InertFirst(params: Params, order: seq<string>, used: set<string>)
    requires order != [] && forall k :: k in order ==> k in params
    ensures Inert(params, order, used)
            == (if order[0] in used || IsIdent(order[0]) then [] else [Printed(order[0], params[order[0]])])
               + Inert(params, order[1..], used)
  {
  }

  /** A printed parameter that is a setting of its own, or none. */
  lemma OthersPrinted(params: Params, o: string, more: seq<string>)
    requires o in params && !IsHeader(Printed(o, params[o]))
    requires IsIdent(o) || Setting(Printed(o, params[o])).None?
    ensures OtherLines(params, [Printed(o, params[o])] + more, true)
            == (if IsIdent(o) then [] else [Printed(o, params[o])]) + OtherLines(params, more, true)
  {
    hide Setting, IsHeader, Printed, IsIdent, OtherLines;
    if IsIdent(o) {
      PrintedIsSetting(o, params[o]);
    }
    OthersCons(params, Printed(o, params[o]), more, true);
  }

  /** One that prints as a header, with those after it. */
  lemma FlushHeader(params: Params, order: seq<string>, used: set<string>, tail: seq<string>)
    requires order != [] && (forall j :: j in order ==> j in params) && Orderly(params, order) && Closes(tail)
    requires order[0] !in used || IsIdent(order[0])
    requires IsHeader(Printed(order[0], params[order[0]]))
    ensures OtherLines(params, Flush(params, order, used) + tail, true)
            == Inert(params, order, used) + OtherLines(params, tail, true)
  {
    hide Setting, IsHeader, Printed, Flush, IsIdent, OtherLines, IsPgbouncerHeader, Inert, Closes;
    var o, rest := order[0], Flush(params, order[1..], used);
    FlushFirst(params, order, used);
    InertFirst(params, order, used);
    if IsIdent(o) {
      PrintedIsSetting(o, params[o]);
    }
    PrintedOpensNothing(o, params[o]);
    assert Flush(params, order, used) + tail == [Printed(o, params[o])] + (rest + tail);
    OthersCons(params, Printed(o, params[o]), rest + tail, true);
    FlushOthersOutside(params, order[1..], used, tail);
  }

  /** Behind a header of another section every line printed is another line. */
  lemma {:induction false} FlushOthersOutside(params: Params, order: seq<string>, used: set<string>, tail: seq<string>)
    requires (forall j :: j in order ==> j in params && !IsIdent(j)) && Closes(tail)
    ensures OtherLines(params, Flush(params, order, used) + tail, false)
            == Inert(params, order, used) + OtherLines(params, tail, true)
  {
    hide Setting, IsHeader, Printed, Flush, IsIdent, IsPgbouncerHeader;
    if order == [] {
      FlushNothing(params, used);
      assert [] + tail == tail;
    } else {
      var o, rest := order[0], Flush(params, order[1..], used);
      FlushFirst(params, order, used);
      FlushOthersOutside(params, order[1..], used, tail);
      hide OtherLines;
      if o in used {
        assert Flush(params, order, used) == rest;
      } else {
        PrintedOpensNothing(o, params[o]);
        assert Flush(params, order, used) + tail == [Printed(o, params[o])] + (rest + tail);
        OthersCons(params, Printed(o, params[o]), rest + tail, false);
      }
    }
  }

  /** Names that are words are not among them. */
  lemma {:induction false} InertUnless(params: Params, order: seq<string>, used: set<string>, more: set<string>)
    requires forall k :: k in order ==> k in params
    requires forall k :: k in more ==> IsIdent(k) || k in used
    ensures Inert(params, order, used + more) == Inert(params, order, used)
  {
    hide IsIdent;
    if order != [] {
      InertUnless(params, order[1..], used, more);
    }
  }

  lemma {:induction false} InertNone(params: Params, order: seq<string>, used: set<string>)
    requires forall k :: k in order ==> k in params && (k in used || IsIdent(k))
    ensures Inert(params, order, used) == []
  {
    hide IsIdent;
    if order != [] {
      InertNone(params, order[1..], used);
    }
  }

  lemma {:induction false} InertSome(params: Params, order: seq<string>, k: string)
    requires (forall j :: j in order ==> j in params) && k in order && !IsIdent(k)
    ensures Inert(params, order, {}) != []
  {
    hide IsIdent;
    if k != order[0] {
      InertSome(params, order[1..], k);
    }
  }

  // ---- The states of a run ---------------------------------------------------------------

  /** What holds between any two lines: a section is only open when one was seen,
      all parameters are used once a section was closed, none before one was seen, and
      those that are no words only then. */
  predicate Reachable(params: Params, s: State) {
    && (s.inSection ==> s.seen)
    && (s.seen && !s.inSection ==> s.used == params.Keys)
    && (!s.seen ==> s.used == {})
    && s.used <= params.Keys
    && (forall k :: k in s.used && !IsIdent(k) ==> s.used == params.Keys)
  }

  lemma StaysReachable(params: Params, line: string, s: State)
    requires Reachable(params, s)
    ensures Reachable(params, LineState(params, line, s))
  {
    hide Setting, IsHeader, IsPgbouncerHeader, IsIdent;
    OnlyIdentsSet(line);
  }

  lemma UsedTogetherWhen(params: Params, order: seq<string>, s: State)
    requires Enumerates(order, params) && Reachable(params, s)
    ensures UsedTogether(order, s.used)
  {
  }

  /** The values of one key after a line printed in the section it leaves. */
  lemma ValuesCons(line: string, tail: seq<string>, inSection: bool, k: string)
    ensures Values([line] + tail, inSection, k)
            == if IsHeader(line) then Values(tail, IsPgbouncerHeader(line), k)
               else if inSection && Setting(line).Some? && Setting(line).value.0 == k then
                 [Setting(line).value.1] + Values(tail, inSection, k)
               else Values(tail, inSection, k)
  {
    assert ([line] + tail)[1..] == tail;
  }

  // ---- Override --------------------------------------------------------------------------

  /** What one line adds to the values of k, before what follows. */
  ghost predicate AddsValues(params: Params, order: seq<string>, line: string, s: State, tail: seq<string>, k: string)
    requires forall j :: j in order ==> j in params
  {
    var out := Values(LineOut(params, order, line, s) + tail, s.inSection, k);
    var after := Values(tail, LineState(params, line, s).inSection, k);
    if k in params then
      out == (if k in LineState(params, line, s).used && k !in s.used && IsIdent(k) then [Strip(params[k], IsBlank)] else [])
             + after
    else out == Values([line], s.inSection, k) + after
  }

  lemma LineValues(params: Params, order: seq<string>, line: string, s: State, tail: seq<string>, k: string)
    requires Enumerates(order, params) && Orderly(params, order) && Reachable(params, s)
    ensures AddsValues(params, order, line, s, tail, k)
  {
    hide AddsValues, Orderly, Reachable, Enumerates, IsHeader;
    if IsHeader(line) {
      HeaderValues(params, order, line, s, tail, k);
    } else {
      SettingValues(params, order, line, s, tail, k);
    }
  }

  lemma HeaderValues(params: Params, order: seq<string>, line: string, s: State, tail: seq<string>, k: string)
    requires Enumerates(order, params) && Orderly(params, order) && Reachable(params, s) && IsHeader(line)
    ensures AddsValues(params, order, line, s, tail, k)
  {
    hide Setting, Flush, Values, Strip, IsIdent, Orderly;
    ValuesOfNothing(k);
    ValuesCons(line, [], s.inSection, k);
    assert [line] + [] == [line];
    ValuesCons(line, tail, s.inSection, k);
    if s.inSection {
      FlushedValues(params, order, line, s, tail, k);
      assert LineOut(params, order, line, s) + tail == Flush(params, order, s.used) + ([line] + tail);
    } else {
      assert LineOut(params, order, line, s) == [line];
    }
  }

  lemma SettingValues(params: Params, order: seq<string>, line: string, s: State, tail: seq<string>, k: string)
    requires Enumerates(order, params) && Reachable(params, s) && !IsHeader(line)
    ensures AddsValues(params, order, line, s, tail, k)
  {
    hide Setting, IsHeader, Printed, Values, Strip, IsIdent;
    ValuesOfNothing(k);
    OnlyIdentsSet(line);
    ValuesCons(line, [], s.inSection, k);
    assert [line] + [] == [line];
    ValuesCons(line, tail, s.inSection, k);
    if s.inSection && Overrides(params, line) {
      var key := Setting(line).value.0;
      if key in s.used {
        assert LineOut(params, order, line, s) + tail == tail;
      } else {
        PrintedIsSetting(key, params[key]);
        ValuesCons(Printed(key, params[key]), tail, true, k);
      }
    }
  }

  /** A flush before the header of another section. */
  lemma FlushedValues(params: Params, order: seq<string>, line: string, s: State, tail: seq<string>, k: string)
    requires Enumerates(order, params) && Orderly(params, order) && Reachable(params, s) && IsHeader(line)
    ensures Values(Flush(params, order, s.used) + ([line] + tail), true, k)
            == (if k in params && k !in s.used && IsIdent(k) then [Strip(params[k], IsBlank)] else [])
               + Values([line] + tail, true, k)
  {
    hide Values, Flush, Orderly, Strip, IsIdent;
    UsedTogetherWhen(params, order, s);
    FlushValues(params, order, s.used, [line] + tail, k);
  }

  lemma ValuesOfNothing(k: string)
    ensures forall b :: Values([], b, k) == []
  {
  }

  lemma FlushedAtEnd(params: Params, order: seq<string>, s: State, k: string)
    requires Enumerates(order, params) && Orderly(params, order) && Reachable(params, s)
    ensures Values(Flush(params, order, s.used), true, k)
            == if k in params && k !in s.used && IsIdent(k) then [Strip(params[k], IsBlank)] else []
  {
    hide Values, Flush, Orderly, Strip, IsIdent;
    UsedTogetherWhen(params, order, s);
    FlushValues(params, order, s.used, [], k);
    ValuesOfNothing(k);
    assert Flush(params, order, s.used) + [] == Flush(params, order, s.used);
  }

  lemma EndValues(params: Params, order: seq<string>, s: State, k: string)
    requires Enumerates(order, params) && Orderly(params, order) && Reachable(params, s)
    ensures Values(EndOut(params, order, s), s.inSection, k)
            == if k in params && k !in s.used && IsIdent(k) then [Strip(params[k], IsBlank)] else []
  {
    hide Flush, Values, IsHeader, IsPgbouncerHeader, Setting, Strip, IsIdent, Orderly;
    var flushed := Flush(params, order, s.used);
    FlushedAtEnd(params, order, s, k);
    ValuesOfNothing(k);
    if !s.inSection && !s.seen {
      HeaderLines();
      ValuesCons("", ["[pgbouncer]"] + flushed, false, k);
      ValuesCons("[pgbouncer]", flushed, false, k);
      assert EndOut(params, order, s) == [""] + (["[pgbouncer]"] + flushed);
    }
  }

  /** From any reachable state: a parameter not used yet gets exactly one setting, its own, if
      its name is a word; a used one gets none; any other key keeps all its settings. */
  lemma {:induction false} MergeOverrides(params: Params, order: seq<string>, lines: seq<string>, s: State, k: string)
    requires Enumerates(order, params) && Orderly(params, order) && Reachable(params, s)
    ensures Values(Merged(params, order, lines, s), s.inSection, k)
            == if k !in params then Values(lines, s.inSection, k)
               else if k in s.used || !IsIdent(k) then [] else [Strip(params[k], IsBlank)]
  {
    hide LineOut, EndOut, Setting, IsHeader, IsPgbouncerHeader, Values, Strip, IsIdent, Orderly, Merged;
    ValuesOfNothing(k);
    if lines == [] {
      NothingMerged(params, order, s);
      EndValues(params, order, s, k);
    } else {
      var line, rest, next := lines[0], lines[1..], LineState(params, lines[0], s);
      StaysReachable(params, line, s);
      MergeOverrides(params, order, rest, next, k);
      LineValues(params, order, line, s, Merged(params, order, rest, next), k);
      MergedCons(params, order, line, rest, s);
      ValuesCons(line, rest, s.inSection, k);
      ValuesCons(line, [], s.inSection, k);
      assert [line] + rest == lines && [line] + [] == [line];
    }
  }

  // ---- The merged file --------------------------------------------------------------------

  /** The values of k in the merged file: a parameter is set exactly once, to its value up to
      surrounding blanks, if its name is a word; every other key keeps all its settings. */
  function Overridden(params: Params, lines: seq<string>, k: string): seq<string> {
    if k !in params then Values(lines, false, k)
    else if IsIdent(k) then [Strip(params[k], IsBlank)]
    else []
  }

  /** The ini file is overridden like a map. */
  lemma MergeRefinesOverride(params: Params, order: seq<string>, lines: seq<string>)
    requires Enumerates(order, params) && Orderly(params, order)
    ensures
      var out := Merged(params, order, lines, START);
      && (forall k :: Values(out, false, k) == Overridden(params, lines, k))
      && (forall k ::
            Effective(out, k)
            == if k in params then (if IsIdent(k) then Some(Strip(params[k], IsBlank)) else None)
               else Effective(lines, k))
  {
    hide Values, Merged, IsIdent, Orderly, Strip;
    forall k: string
      ensures Values(Merged(params, order, lines, START), false, k) == Overridden(params, lines, k)
    {
      MergeOverrides(params, order, lines, START, k);
    }
  }

  /** This holds on all files exactly when the parameters do no harm in the order in which awk
      enumerates them. */
  lemma OverrideIffOrderly(params: Params, order: seq<string>)
    requires Enumerates(order, params)
    ensures
      (forall lines, j :: Values(Merged(params, order, lines, START), false, j) == Overridden(params, lines, j))
      <==> Orderly(params, order)
  {
    hide Values, Merged, IsIdent, Setting, IsHeader, Strip, Printed, IsPgbouncerHeader, Overridden, Orderly, OpenUntil, ShutBefore;
    if Orderly(params, order) {
      forall lines, j: string
        ensures Values(Merged(params, order, lines, START), false, j) == Overridden(params, lines, j)
      {
        MergeRefinesOverride(params, order, lines);
      }
    } else {
      var misread, o := Trouble(params, order);
      if misread {
        var lines, j := MisreadFails(params, order, o);
      } else {
        ShutFails(params, order, o);
      }
    }
  }

  /** The section is open when o is flushed. */
  predicate OpenUntil(params: Params, order: seq<string>, o: string)
    requires forall k :: k in order ==> k in params
  {
    && order != []
    && (order[0] == o || (!IsHeader(Printed(order[0], params[order[0]])) && OpenUntil(params, order[1..], o)))
  }

  /** The section is shut when o is flushed, and nothing before it reads as a setting of o. */
  predicate ShutBefore(params: Params, order: seq<string>, o: string)
    requires forall k :: k in order ==> k in params
  {
    && order != [] && order[0] != o
    && if IsHeader(Printed(order[0], params[order[0]])) then o in order[1..]
       else
         && (IsIdent(order[0]) || Setting(Printed(order[0], params[order[0]])).None?)
         && ShutBefore(params, order[1..], o)
  }

  lemma {:induction false} Trouble(params: Params, order: seq<string>) returns (misread: bool, o: string)
    requires (forall k :: k in order ==> k in params) && !Orderly(params, order)
    requires forall i, j :: 0 <= i < j < |order| ==> order[i] != order[j]
    ensures o in order
    ensures misread ==>
              && OpenUntil(params, order, o) && !IsIdent(o)
              && !IsHeader(Printed(o, params[o])) && Setting(Printed(o, params[o])).Some?
    ensures !misread ==> ShutBefore(params, order, o) && IsIdent(o)
  {
    hide IsHeader, Setting, IsIdent, Printed;
    if IsHeader(Printed(order[0], params[order[0]])) {
      misread := false;
      o :| o in order[1..] && IsIdent(o);
    } else if !IsIdent(order[0]) && Setting(Printed(order[0], params[order[0]])).Some? {
      misread, o := true, order[0];
    } else {
      misread, o := Trouble(params, order[1..]);
    }
  }

  /** The merged file of one that has the section and at most a setting in it. */
  lemma MergedSection(params: Params, order: seq<string>, k: string)
    requires Enumerates(order, params)
    ensures Values(Merged(params, order, ["[pgbouncer]"], START), false, k) == Values(Flush(params, order, {}), true, k)
    ensures IsIdent(k) ==>
              Values(Merged(params, order, ["[pgbouncer]", Printed(k, "")], START), false, k)
              == [if k in params then Strip(params[k], IsBlank) else ""]
                 + Values(Flush(params, order, if k in params then {k} else {}), true, k)
  {
    hide Values, Merged, Setting, IsHeader, Strip, Printed, IsPgbouncerHeader, Flush, IsIdent;
    HeaderLines();
    var open := State(true, true, {});
    assert LineState(params, "[pgbouncer]", START) == open;
    assert LineOut(params, order, "[pgbouncer]", START) == ["[pgbouncer]"];
    assert ["[pgbouncer]"] + [] == ["[pgbouncer]"];
    MergedCons(params, order, "[pgbouncer]", [], START);
    NothingMerged(params, order, open);
    ValuesCons("[pgbouncer]", Flush(params, order, {}), false, k);
    if IsIdent(k) {
      var line := Printed(k, "");
      PrintedIsSetting(k, "");
      StripBlank();
      assert ["[pgbouncer]"] + [line] == ["[pgbouncer]", line] && [line] + [] == [line];
      MergedCons(params, order, "[pgbouncer]", [line], START);
      MergedCons(params, order, line, [], open);
      NothingMerged(params, order, LineState(params, line, open));
      var out := if k in params then Printed(k, params[k]) else line;
      assert LineOut(params, order, line, open) == [out];
      assert open.used + {k} == {k};
      assert LineState(params, line, open) == State(true, true, if k in params then {k} else {});
      if k in params {
        PrintedIsSetting(k, params[k]);
      }
      var flushed := Flush(params, order, if k in params then {k} else {});
      assert Merged(params, order, ["[pgbouncer]", line], START) == ["[pgbouncer]"] + ([out] + flushed);
      ValuesCons("[pgbouncer]", [out] + flushed, false, k);
      ValuesCons(out, flushed, true, k);
    }
  }

  lemma StripBlank()
    ensures Strip("", IsBlank) == ""
  {
  }

  lemma MisreadFails(params: Params, order: seq<string>, o: string) returns (lines: seq<string>, j: string)
    requires Enumerates(order, params) && o in params && OpenUntil(params, order, o) && !IsIdent(o)
    requires !IsHeader(Printed(o, params[o])) && Setting(Printed(o, params[o])).Some?
    ensures Values(Merged(params, order, lines, START), false, j) != Overridden(params, lines, j)
  {
    hide Merged, IsIdent, Setting, IsHeader, Strip, Printed, IsPgbouncerHeader, OpenUntil, Flush, Values;
    j := Setting(Printed(o, params[o])).value.0;
    lines := ["[pgbouncer]", Printed(j, "")];
    OnlyIdentsSet(Printed(o, params[o]));
    MergedSection(params, order, j);
    FlushHolds(params, order, if j in params then {j} else {}, o);
    HeaderLines();
    PrintedIsSetting(j, "");
    ValuesOfNothing(j);
    assert ["[pgbouncer]"] + [Printed(j, "")] == lines && [Printed(j, "")] + [] == [Printed(j, "")];
    ValuesCons("[pgbouncer]", [Printed(j, "")], false, j);
    ValuesCons(Printed(j, ""), [], true, j);
  }

  lemma {:induction false} FlushHolds(params: Params, order: seq<string>, used: set<string>, o: string)
    requires (forall k :: k in order ==> k in params) && o in params && o !in used && OpenUntil(params, order, o)
    requires !IsHeader(Printed(o, params[o])) && Setting(Printed(o, params[o])).Some?
    ensures Values(Flush(params, order, used), true, Setting(Printed(o, params[o])).value.0) != []
  {
    hide Setting, IsHeader, Printed, Flush, Values, IsPgbouncerHeader, IsIdent;
    var k, first, rest := Setting(Printed(o, params[o])).value.0, order[0], Flush(params, order[1..], used);
    FlushFirst(params, order, used);
    if first != o {
      FlushHolds(params, order[1..], used, o);
    }
    if first in used {
      assert Flush(params, order, used) == rest;
    } else {
      ValuesCons(Printed(first, params[first]), rest, true, k);
    }
  }

  lemma ShutFails(params: Params, order: seq<string>, o: string)
    requires Enumerates(order, params) && o in params && ShutBefore(params, order, o) && IsIdent(o)
    ensures Values(Merged(params, order, ["[pgbouncer]"], START), false, o) != Overridden(params, ["[pgbouncer]"], o)
  {
    hide Merged, IsIdent, ShutBefore, Flush, Values, Strip;
    MergedSection(params, order, o);
    FlushMisses(params, order, o);
  }

  lemma {:induction false} FlushMisses(params: Params, order: seq<string>, o: string)
    requires (forall k :: k in order ==> k in params) && ShutBefore(params, order, o)
    ensures Values(Flush(params, order, {}), true, o) == []
  {
    hide Setting, IsHeader, Printed, Flush, Values, IsPgbouncerHeader, IsIdent;
    var first, rest := order[0], Flush(params, order[1..], {});
    FlushFirst(params, order, {});
    assert Flush(params, order, {}) == [Printed(first, params[first])] + rest;
    ValuesCons(Printed(first, params[first]), rest, true, o);
    if IsHeader(Printed(first, params[first])) {
      PrintedOpensNothing(first, params[first]);
      FlushOutside(params, order[1..], {}, [], o);
      ValuesOfNothing(o);
      assert rest + [] == rest;
    } else {
      FlushMisses(params, order[1..], o);
      if IsIdent(first) {
        PrintedIsSetting(first, params[first]);
      }
    }
  }

  /** A name that is no word but prints as a setting sets another key. */
  lemma Misread(k: string, v: string)
    requires !IsHeader(Printed(k, v)) && !IsIdent(k) && Setting(Printed(k, v)).Some?
    ensures
      var (j, w) := Setting(Printed(k, v)).value;
      && Values(Merged(map[k := v], [k], ["[pgbouncer]"], START), false, j) == [w]
      && Overridden(map[k := v], ["[pgbouncer]"], j) == []
  {
    hide Values, Merged, IsIdent, Setting, IsHeader, Strip, Printed, IsPgbouncerHeader;
    var params, line := map[k := v], Printed(k, v);
    var j := Setting(line).value.0;
    OnlyIdentsSet(line);
    HeaderLines();
    FlushOne(k, v);
    MergedCons(params, [k], "[pgbouncer]", [], START);
    NothingMerged(params, [k], State(true, true, {}));
    assert LineState(params, "[pgbouncer]", START) == State(true, true, {});
    assert ["[pgbouncer]"] + [] == ["[pgbouncer]"] && [line] + [] == [line];
    assert Merged(params, [k], ["[pgbouncer]"], START) == ["[pgbouncer]"] + [line];
    ValuesOfNothing(j);
    ValuesCons("[pgbouncer]", [line], false, j);
    ValuesCons(line, [], true, j);
    ValuesCons("[pgbouncer]", [], false, j);
  }

  /** At an input: the parameter `x =` with the value 1 sets x, to `= 1`. */
  lemma MisreadName()
    ensures Values(Merged(map["x =" := "1"], ["x ="], ["[pgbouncer]"], START), false, "x") == ["= 1"]
  {
    assert Printed("x =", "1") == "x = = 1" == Printed("x", "= 1");
    hide Values, Merged, Setting, IsHeader, Printed;
    PrintedIsSetting("x", "= 1");
    assert "x ="[1] == ' ';
    Misread("x =", "1");
  }

  /** All parameters take effect exactly when all their names can be keys. */
  lemma AllTakeEffectIffIdents(params: Params, order: seq<string>, lines: seq<string>)
    requires Enumerates(order, params)
    ensures
      (forall k :: k in params ==> Effective(Merged(params, order, lines, START), k) == Some(Strip(params[k], IsBlank)))
      <==> AllIdents(params)
  {
    hide Values, Merged;
    if AllIdents(params) {
      IdentsOrderly(params, order);
      MergeRefinesOverride(params, order, lines);
    } else {
      var k :| k in params && !IsIdent(k);
      OnlyIdentsTakeEffect(Merged(params, order, lines, START), false, k);
    }
  }

  // ---- What survives -------------------------------------------------------------------------

  lemma OthersCons(params: Params, line: string, tail: seq<string>, inSection: bool)
    ensures OtherLines(params, [line] + tail, inSection)
            == (if !IsHeader(line) && inSection && Overrides(params, line) then [] else [line])
               + OtherLines(params, tail, if IsHeader(line) then IsPgbouncerHeader(line) else inSection)
  {
    assert ([line] + tail)[1..] == tail;
  }

  predicate HasSection(lines: seq<string>) {
    exists i :: 0 <= i < |lines| && IsHeader(lines[i]) && IsPgbouncerHeader(lines[i])
  }

  lemma LineOthers(params: Params, order: seq<string>, line: string, s: State, tail: seq<string>)
    requires Enumerates(order, params) && Orderly(params, order) && Reachable(params, s)
    ensures OtherLines(params, LineOut(params, order, line, s) + tail, s.inSection)
            == (if IsHeader(line) && s.inSection then Inert(params, order, s.used) else [])
               + (if !IsHeader(line) && s.inSection && Overrides(params, line) then [] else [line])
               + OtherLines(params, tail, LineState(params, line, s).inSection)
  {
    hide Setting, IsHeader, Printed, Flush, OtherLines, IsPgbouncerHeader, Orderly, Inert, IsIdent;
    OthersCons(params, line, tail, s.inSection);
    if IsHeader(line) {
      if s.inSection {
        UsedTogetherWhen(params, order, s);
        FlushOthers(params, order, s.used, [line] + tail);
        assert LineOut(params, order, line, s) + tail == Flush(params, order, s.used) + ([line] + tail);
      } else {
        assert LineOut(params, order, line, s) == [line];
      }
    } else if s.inSection && Overrides(params, line) {
      var key := Setting(line).value.0;
      OnlyIdentsSet(line);
      PrintedIsSetting(key, params[key]);
      OthersCons(params, Printed(key, params[key]), tail, true);
      assert LineOut(params, order, line, s) == if key in s.used then [] else [Printed(key, params[key])];
      assert [] + tail == tail;
    }
  }

  lemma EndOthers(params: Params, order: seq<string>, s: State)
    requires Enumerates(order, params) && Orderly(params, order)
    requires Reachable(params, s)
    ensures OtherLines(params, EndOut(params, order, s), s.inSection)
            == (if s.seen then [] else ["", "[pgbouncer]"]) + Inert(params, order, s.used)
  {
    hide Setting, Printed, Flush, Strip, IsHeader, IsPgbouncerHeader, Orderly, Inert, IsIdent;
    var flushed := Flush(params, order, s.used);
    UsedTogetherWhen(params, order, s);
    FlushOthers(params, order, s.used, []);
    assert flushed + [] == flushed;
    if !s.seen {
      HeaderLines();
      OthersCons(params, "", ["[pgbouncer]"] + flushed, false);
      OthersCons(params, "[pgbouncer]", flushed, false);
      assert EndOut(params, order, s) == [""] + (["[pgbouncer]"] + flushed);
    } else if !s.inSection {
      InertNone(params, order, s.used);
    }
  }

  /** `more` stands in `all` somewhere between the lines of `some`. */
  ghost predicate Inserted(some: seq<string>, more: seq<string>, all: seq<string>) {
    exists i :: InsertedAt(some, more, all, i)
  }

  predicate InsertedAt(some: seq<string>, more: seq<string>, all: seq<string>, i: int) {
    0 <= i <= |some| && all == some[..i] + more + some[i..]
  }

  lemma InsertedLater(line: string, some: seq<string>, more: seq<string>, all: seq<string>)
    requires Inserted(some, more, all)
    ensures Inserted([line] + some, more, [line] + all)
  {
    var i :| InsertedAt(some, more, all, i);
    assert InsertedAt([line] + some, more, [line] + all, i + 1);
  }

  lemma InsertedNothing(some: seq<string>, all: seq<string>)
    requires Inserted(some, [], all)
    ensures all == some
  {
  }

  /** What survives of the lines: all but the replaced and dropped settings, and the missing
      header of the section. */
  function Survivors(params: Params, lines: seq<string>, s: State): seq<string> {
    OtherLines(params, lines, s.inSection) + if s.seen || HasSection(lines) then [] else ["", "[pgbouncer]"]
  }

  /** Every line but the replaced and dropped settings survives verbatim, in order; beside
      them stand a missing section header at the end and, once, the lines of the parameters
      whose names are no words. */
  lemma {:induction false} OthersSurvive(params: Params, order: seq<string>, lines: seq<string>, s: State)
    requires Enumerates(order, params) && Orderly(params, order) && Reachable(params, s)
    ensures Inserted(Survivors(params, lines, s), Inert(params, order, s.used),
                     OtherLines(params, Merged(params, order, lines, s), s.inSection))
  {
    hide LineOut, EndOut, IsHeader, IsPgbouncerHeader, Overrides, Inert, Orderly, Inserted, OtherLines, HasSection, IsIdent;
    if lines == [] {
      EndOthers(params, order, s);
      EndSurvivors(params, order, s);
    } else {
      var line, rest, next := lines[0], lines[1..], LineState(params, lines[0], s);
      StaysReachable(params, line, s);
      OthersSurvive(params, order, rest, next);
      LineOthers(params, order, line, s, Merged(params, order, rest, next));
      OthersCons(params, line, rest, s.inSection);
      assert lines == [line] + rest;
      SectionCons(line, rest);
      LineSurvives(params, order, line, rest, s, OtherLines(params, Merged(params, order, rest, next), next.inSection));
    }
  }

  lemma EndSurvivors(params: Params, order: seq<string>, s: State)
    requires forall k :: k in order ==> k in params
    ensures Inserted(Survivors(params, [], s), Inert(params, order, s.used),
                     (if s.seen then [] else ["", "[pgbouncer]"]) + Inert(params, order, s.used))
  {
    var some := Survivors(params, [], s);
    assert some == if s.seen then [] else ["", "[pgbouncer]"];
    assert some[|some|..] == [] && some[..|some|] == some;
    assert InsertedAt(some, Inert(params, order, s.used), some + Inert(params, order, s.used), |some|);
  }

  /** One line, put before what survives of the rest. */
  lemma LineSurvives(params: Params, order: seq<string>, line: string, rest: seq<string>, s: State, all: seq<string>)
    requires Enumerates(order, params) && Reachable(params, s)
    requires Inserted(Survivors(params, rest, LineState(params, line, s)),
                      Inert(params, order, LineState(params, line, s).used), all)
    ensures Inserted(Survivors(params, [line] + rest, s), Inert(params, order, s.used),
                     (if IsHeader(line) && s.inSection then Inert(params, order, s.used) else [])
                     + (if !IsHeader(line) && s.inSection && Overrides(params, line) then [] else [line]) + all)
  {
    hide Inert, IsIdent, Inserted, OtherLines, HasSection, Setting, IsPgbouncerHeader, IsHeader;
    var next, more := LineState(params, line, s), Inert(params, order, s.used);
    var some := Survivors(params, rest, next);
    OthersCons(params, line, rest, s.inSection);
    SectionCons(line, rest);
    if IsHeader(line) && s.inSection {
      assert next.used == params.Keys;
      InertNone(params, order, next.used);
      InsertedNothing(some, all);
      assert Survivors(params, [line] + rest, s) == [line] + some;
      InsertedFirst([line] + some, more);
      assert more + [line] + all == more + ([line] + some);
    } else if !IsHeader(line) && s.inSection && Overrides(params, line) {
      OnlyIdentsSet(line);
      InertUnless(params, order, s.used, {Setting(line).value.0});
      assert Survivors(params, [line] + rest, s) == some;
      assert [] + [] + all == all;
    } else {
      assert Survivors(params, [line] + rest, s) == [line] + some by {
        assert OtherLines(params, [line] + rest, s.inSection) == [line] + OtherLines(params, rest, next.inSection);
      }
      InsertedLater(line, some, more, all);
      assert [] + [line] + all == [line] + all;
    }
  }

  lemma InsertedFirst(some: seq<string>, more: seq<string>)
    ensures Inserted(some, more, more + some)
  {
    assert InsertedAt(some, more, more + some, 0);
  }

  lemma SectionCons(line: string, rest: seq<string>)
    ensures HasSection([line] + rest) <==> (IsHeader(line) && IsPgbouncerHeader(line)) || HasSection(rest)
  {
    var all := [line] + rest;
    if HasSection(rest) {
      var i :| 0 <= i < |rest| && IsHeader(rest[i]) && IsPgbouncerHeader(rest[i]);
      assert all[i + 1] == rest[i];
    }
    if IsHeader(line) && IsPgbouncerHeader(line) {
      assert all[0] == line;
    }
  }

  // ---- Idempotence -----------------------------------------------------------------------------

  function KeySet(order: seq<string>): set<string> {
    if order == [] then {} else {order[0]} + KeySet(order[1..])
  }

  lemma {:induction false} InKeySet(order: seq<string>, k: string)
    ensures k in KeySet(order) <==> k in order
  {
    if order != [] {
      InKeySet(order[1..], k);
    }
  }

  /** Running the merge again over lines flushed before. */
  lemma {:induction false} MergeOverFlush(params: Params, o1: seq<string>, o2: seq<string>, u1: set<string>,
                                          tail: seq<string>, u2: set<string>)
    requires AllIdents(params) && (forall k :: k in o1 ==> k in params) && (forall k :: k in o2 ==> k in params)
    requires forall i, j :: 0 <= i < j < |o1| ==> o1[i] != o1[j]
    requires forall k :: k in o1 ==> (k in u1 <==> k in u2)
    ensures Merged(params, o2, Flush(params, o1, u1) + tail, State(true, true, u2))
            == Flush(params, o1, u1) + Merged(params, o2, tail, State(true, true, u2 + KeySet(o1)))
  {
    hide Setting, IsHeader, Printed, Flush, Merged;
    if o1 == [] {
      FlushNothing(params, u1);
      assert [] + tail == tail;
      assert u2 + KeySet(o1) == u2;
    } else {
      var o, rest := o1[0], Flush(params, o1[1..], u1);
      FlushFirst(params, o1, u1);
      assert o !in o1[1..];
      assert u2 + {o} + KeySet(o1[1..]) == u2 + KeySet(o1);
      MergeOverFlush(params, o1[1..], o2, u1, tail, u2 + {o});
      if o in u1 {
        assert u2 + {o} == u2;
        assert [] + rest == rest;
      } else {
        MergedPrinted(params, o2, o, rest + tail, u2);
        assert [Printed(o, params[o])] + rest + tail == [Printed(o, params[o])] + (rest + tail);
      }
    }
  }

  /** A printed parameter not used yet is printed again, the same. */
  lemma MergedPrinted(params: Params, order: seq<string>, k: string, tail: seq<string>, used: set<string>)
    requires AllIdents(params) && (forall j :: j in order ==> j in params)
    requires k in params && k !in used
    ensures
      var line := Printed(k, params[k]);
      Merged(params, order, [line] + tail, State(true, true, used))
      == [line] + Merged(params, order, tail, State(true, true, used + {k}))
  {
    hide Setting, IsHeader, Printed, Flush;
    var line := Printed(k, params[k]);
    PrintedIsSetting(k, params[k]);
    assert ([line] + tail)[1..] == tail;
  }

  lemma {:induction false} FlushAllUsed(params: Params, order: seq<string>, used: set<string>)
    requires forall k :: k in order ==> k in params && k in used
    ensures Flush(params, order, used) == []
  {
    if order != [] {
      FlushAllUsed(params, order[1..], used);
    }
  }

  lemma KeySetOfOrder(params: Params, order: seq<string>)
    requires Enumerates(order, params)
    ensures KeySet(order) == params.Keys
  {
    forall k: string
      ensures k in KeySet(order) <==> k in params
    {
      InKeySet(order, k);
    }
  }

  /** A flush, its section then closed or ended, printed again the same. */
  lemma MergeOverWholeFlush(params: Params, o1: seq<string>, o2: seq<string>, used: set<string>, tail: seq<string>)
    requires AllIdents(params) && Enumerates(o1, params) && Enumerates(o2, params) && used <= params.Keys
    ensures Merged(params, o2, Flush(params, o1, used) + tail, State(true, true, used))
            == Flush(params, o1, used) + Merged(params, o2, tail, State(true, true, params.Keys))
    ensures Flush(params, o2, params.Keys) == []
  {
    hide Flush, Merged;
    MergeOverFlush(params, o1, o2, used, tail, used);
    KeySetOfOrder(params, o1);
    assert used + params.Keys == params.Keys;
    FlushAllUsed(params, o2, params.Keys);
  }

  lemma MergedCons(params: Params, order: seq<string>, line: string, tail: seq<string>, s: State)
    requires forall k :: k in order ==> k in params
    ensures Merged(params, order, [line] + tail, s)
            == LineOut(params, order, line, s) + Merged(params, order, tail, LineState(params, line, s))
  {
    assert ([line] + tail)[1..] == tail;
  }

  lemma MergeEndAgain(params: Params, o1: seq<string>, o2: seq<string>, s: State)
    requires AllIdents(params) && Enumerates(o1, params) && Enumerates(o2, params) && Reachable(params, s)
    ensures Merged(params, o2, EndOut(params, o1, s), s) == EndOut(params, o1, s)
  {
    hide Flush, Setting, Strip, IsHeader, IsPgbouncerHeader, IsIdent, Merged;
    var flushed := Flush(params, o1, s.used);
    assert flushed + [] == flushed;
    MergeOverWholeFlush(params, o1, o2, s.used, []);
    NothingMerged(params, o2, State(true, true, params.Keys));
    NothingMerged(params, o2, s);
    if !s.inSection && !s.seen {
      HeaderLines();
      MergedCons(params, o2, "", ["[pgbouncer]"] + flushed, s);
      MergedCons(params, o2, "[pgbouncer]", flushed, s);
      assert EndOut(params, o1, s) == [""] + (["[pgbouncer]"] + flushed);
      assert State(true, true, s.used) == LineState(params, "[pgbouncer]", s);
    }
  }

  /** One line merged, and the result merged again. */
  lemma MergeLineAgain(params: Params, o1: seq<string>, o2: seq<string>, line: string, s: State, tail: seq<string>)
    requires AllIdents(params) && Enumerates(o1, params) && Enumerates(o2, params) && Reachable(params, s)
    ensures Merged(params, o2, LineOut(params, o1, line, s) + tail, s)
            == LineOut(params, o1, line, s) + Merged(params, o2, tail, LineState(params, line, s))
  {
    hide Flush, Setting, IsHeader, IsPgbouncerHeader, Printed, Merged;
    var out, next := LineOut(params, o1, line, s), LineState(params, line, s);
    if IsHeader(line) && s.inSection {
      var flushed := Flush(params, o1, s.used);
      assert out + tail == flushed + ([line] + tail);
      MergeOverWholeFlush(params, o1, o2, s.used, [line] + tail);
      MergedCons(params, o2, line, tail, State(true, true, params.Keys));
      assert s.used + params.Keys == params.Keys == params.Keys + params.Keys;
      assert LineState(params, line, State(true, true, params.Keys)) == next;
      assert out + Merged(params, o2, tail, next) == flushed + ([line] + Merged(params, o2, tail, next));
    } else if s.inSection && Overrides(params, line) {
      var key := Setting(line).value.0;
      if key in s.used {
        assert out + tail == tail && next.used == s.used;
      } else {
        MergedPrinted(params, o2, key, tail, s.used);
      }
    } else {
      assert out == [line];
      MergedCons(params, o2, line, tail, s);
    }
  }

  /** Merging the merged file again changes no line, whatever the order in which
      either run enumerates the parameters. */
  lemma {:induction false} MergeIdempotent(params: Params, o1: seq<string>, o2: seq<string>, lines: seq<string>, s: State)
    requires AllIdents(params) && Enumerates(o1, params) && Enumerates(o2, params) && Reachable(params, s)
    ensures Merged(params, o2, Merged(params, o1, lines, s), s) == Merged(params, o1, lines, s)
  {
    hide LineOut, EndOut, LineState;
    if lines == [] {
      MergeEndAgain(params, o1, o2, s);
    } else {
      var next := LineState(params, lines[0], s);
      StaysReachable(params, lines[0], s);
      MergeIdempotent(params, o1, o2, lines[1..], next);
      MergeLineAgain(params, o1, o2, lines[0], s, Merged(params, o1, lines[1..], next));
    }
  }

  /** Among parameters that do no harm idempotence on all files holds exactly when all names are words:
      the lines of the others are added once more by every run. */
  lemma IdempotentIffIdents(params: Params, o1: seq<string>, o2: seq<string>)
    requires Enumerates(o1, params) && Enumerates(o2, params) && Orderly(params, o2)
    ensures (forall lines :: Merged(params, o2, Merged(params, o1, lines, START), START) == Merged(params, o1, lines, START))
            <==> AllIdents(params)
  {
    hide Merged, IsIdent, Orderly, OtherLines, Inert, HasSection, Inserted;
    if AllIdents(params) {
      forall lines: seq<string>
        ensures Merged(params, o2, Merged(params, o1, lines, START), START) == Merged(params, o1, lines, START)
      {
        MergeIdempotent(params, o1, o2, lines, START);
      }
    } else {
      var k :| k in params && !IsIdent(k);
      var out := Merged(params, o1, ["[pgbouncer]"], START);
      StillHasSection(params, o1);
      AddsInert(params, o2, out, k);
    }
  }

  lemma StillHasSection(params: Params, order: seq<string>)
    requires forall k :: k in order ==> k in params
    ensures HasSection(Merged(params, order, ["[pgbouncer]"], START))
  {
    hide Merged, IsHeader, IsPgbouncerHeader;
    HeaderLines();
    assert ["[pgbouncer]"] + [] == ["[pgbouncer]"];
    MergedCons(params, order, "[pgbouncer]", [], START);
    assert Merged(params, order, ["[pgbouncer]"], START)[0] == "[pgbouncer]";
  }

  /** Every run over a file with the section adds the lines of the names that are no words. */
  lemma AddsInert(params: Params, order: seq<string>, lines: seq<string>, k: string)
    requires Enumerates(order, params) && Orderly(params, order) && HasSection(lines)
    requires k in params && !IsIdent(k)
    ensures |OtherLines(params, Merged(params, order, lines, START), false)| > |OtherLines(params, lines, false)|
  {
    hide Merged, OtherLines, Orderly, IsIdent, HasSection, Inert;
    OthersSurvive(params, order, lines, START);
    InertSome(params, order, k);
  }

  /** A parameter whose name is no word is appended once more by every run, so for one
      parameter idempotence on all files holds exactly when its name is a word. */
  lemma IdempotentIffIdent(k: string, v: string)
    ensures
      var params := map[k := v];
      (forall lines :: Merged(params, [k], Merged(params, [k], lines, START), START) == Merged(params, [k], lines, START))
      <==> IsIdent(k)
  {
    hide Merged, IsIdent;
    var params := map[k := v];
    assert Enumerates([k], params);
    if IsIdent(k) {
      forall lines: seq<string>
        ensures Merged(params, [k], Merged(params, [k], lines, START), START) == Merged(params, [k], lines, START)
      {
        MergeIdempotent(params, [k], [k], lines, START);
      }
    } else {
      AppendedAgain(k, v);
    }
  }

  lemma AppendedAgain(k: string, v: string)
    requires !IsIdent(k)
    ensures
      var out := Merged(map[k := v], [k], [], START);
      Merged(map[k := v], [k], out, START) == out + [Printed(k, v)]
  {
    hide Setting, Printed, IsPgbouncerHeader, IsIdent, Merged;
    var params, line, open := map[k := v], Printed(k, v), State(true, true, {});
    FlushOne(k, v);
    NothingMerged(params, [k], START);
    assert Merged(params, [k], [], START) == [""] + (["[pgbouncer]"] + [line]);
    HeaderLines();
    MergedCons(params, [k], "", ["[pgbouncer]"] + [line], START);
    MergedCons(params, [k], "[pgbouncer]", [line], START);
    MergedCons(params, [k], line, [], open);
    OnlyIdentsSet(line);
    PrintedOpensNothing(k, v);
    NothingMerged(params, [k], LineState(params, line, open));
    assert [line] + [] == [line];
  }

  lemma NothingMerged(params: Params, order: seq<string>, s: State)
    requires forall k :: k in order ==> k in params
    ensures Merged(params, order, [], s) == EndOut(params, order, s)
  {
  }

  lemma FlushOne(k: string, v: string)
    ensures Flush(map[k := v], [k], {}) == [Printed(k, v)]
    ensures Flush(map[k := v], [k], {k}) == []
  {
    assert [k][1..] == [];
  }

  lemma HeaderLines()
    ensures !IsHeader("") && IsHeader("[pgbouncer]") && IsPgbouncerHeader("[pgbouncer]")
  {
    assert Strip("[pgbouncer]", IsBlank) == "[pgbouncer]";
  }

  lemma OnlyIdentsSet(line: string)
    ensures Setting(line).Some? ==> IsIdent(Setting(line).value.0)
  {
  }

  /** A printed parameter holds `=`, so it never opens the section. */
  lemma PrintedOpensNothing(k: string, v: string)
    ensures !IsPgbouncerHeader(Printed(k, v))
  {
    var line := Printed(k, v);
    assert line[|k| + 1] == '=';
    StripKeeps(line, '=');
    assert '=' !in "[pgbouncer]";
  }

  lemma {:induction false} StripKeeps(s: string, c: char)
    requires c in s && !IsBlank(c)
    ensures c in Strip(s, IsBlank)
  {
    StripLeftKeeps(s, c);
    StripRightKeeps(StripLeft(s, IsBlank), c);
  }

  lemma {:induction false} StripLeftKeeps(s: string, c: char)
    requires c in s && !IsBlank(c)
    ensures c in StripLeft(s, IsBlank)
  {
    if IsBlank(s[0]) {
      StripLeftKeeps(s[1..], c);
    }
  }

  lemma {:induction false} StripRightKeeps(s: string, c: char)
    requires c in s && !IsBlank(c)
    ensures c in StripRight(s, IsBlank)
  {
    if IsBlank(s[|s| - 1]) {
      StripRightKeeps(s[..|s| - 1], c);
    }
  }

  // ---- From the parameter file ---------------------------------------------------------------

  /** In terms of the lines of the two files: the last line for a word gives its effective
      value, and a key that no line gives keeps its own. */
  lemma LinesTakeEffect(paramLines: seq<string>, order: seq<string>, ini: seq<string>, k: string)
    requires Enumerates(order, ReadParams(paramLines)) && Orderly(ReadParams(paramLines), order)
    ensures
      var out := Merged(ReadParams(paramLines), order, ini, START);
      && (forall v :: GivenLast(paramLines, k, v) && IsIdent(k) ==>
            Effective(out, k) == Some(Strip(v, IsBlank)) && Values(out, false, k) == [Strip(v, IsBlank)])
      && ((forall v :: !GivenLast(paramLines, k, v)) ==> Values(out, false, k) == Values(ini, false, k))
  {
    hide Values, Merged, Strip, GivenLast, ReadParams, Orderly, Enumerates, IsIdent;
    MergeRefinesOverride(ReadParams(paramLines), order, ini);
    forall v
      ensures k in ReadParams(paramLines) && ReadParams(paramLines)[k] == v <==> GivenLast(paramLines, k, v)
    {
      ReadParamsIff(paramLines, k, v);
    }
    if k in ReadParams(paramLines) {
      assert GivenLast(paramLines, k, ReadParams(paramLines)[k]);
    }
  }

  // ---- What the patterns match ------------------------------------------------------------------

  predicate AllBlank(s: string) {
    forall i :: 0 <= i < |s| ==> IsBlank(s[i])
  }

  lemma {:induction false} LeftBlanks(s: string) returns (a: string)
    ensures AllBlank(a) && s == a + StripLeft(s, IsBlank)
  {
    if s == "" || !IsBlank(s[0]) {
      a := "";
    } else {
      a := LeftBlanks(s[1..]);
      a := [s[0]] + a;
    }
  }

  lemma {:induction false} RightBlanks(s: string) returns (c: string)
    ensures AllBlank(c) && s == StripRight(s, IsBlank) + c
  {
    if s == "" || !IsBlank(s[|s| - 1]) {
      c := "";
    } else {
      c := RightBlanks(s[..|s| - 1]);
      c := c + [s[|s| - 1]];
    }
  }

  lemma {:induction false} StripBlanksLeft(a: string, s: string)
    requires AllBlank(a) && (s == "" || !IsBlank(s[0]))
    ensures StripLeft(a + s, IsBlank) == s
  {
    if a == "" {
      assert a + s == s;
    } else {
      assert (a + s)[1..] == a[1..] + s;
      StripBlanksLeft(a[1..], s);
    }
  }

  lemma {:induction false} StripBlanksRight(s: string, c: string)
    requires AllBlank(c) && (s == "" || !IsBlank(s[|s| - 1]))
    ensures StripRight(s + c, IsBlank) == s
  {
    if c == "" {
      assert s + c == s;
    } else {
      assert (s + c)[..|s + c| - 1] == s + c[..|c| - 1];
      StripBlanksRight(s, c[..|c| - 1]);
    }
  }

  ghost predicate SetsIn(line: string, k: string, v: string, a: string, b: string, c: string) {
    AllBlank(a) && AllBlank(b) && line == a + (k + (b + ("=" + c))) && v == Strip(c, IsBlank)
  }

  lemma SettingSplits(line: string, k: string, v: string) returns (a: string, b: string, c: string)
    requires Setting(line) == Some((k, v))
    ensures IsIdent(k) && SetsIn(line, k, v, a, b, c)
  {
    hide Setting, IsIdent, StripLeft, Strip;
    var t, u, rest := SettingParts(line, k, v);
    a := LeftBlanks(line);
    b := LeftBlanks(u);
    c := rest[1..];
    Headed(rest);
    Glued(line, a, t, k, u, b, rest, c);
  }

  lemma SettingParts(line: string, k: string, v: string) returns (t: string, u: string, rest: string)
    requires Setting(line) == Some((k, v))
    ensures IsIdent(k) && t == StripLeft(line, IsBlank) == k + u && rest == StripLeft(u, IsBlank)
    ensures rest != "" && rest[0] == '=' && v == Strip(rest[1..], IsBlank)
  {
    hide StripLeft, Strip;
    t := StripLeft(line, IsBlank);
    u := t[|k|..];
    rest := StripLeft(u, IsBlank);
  }

  lemma Headed(rest: string)
    requires rest != "" && rest[0] == '='
    ensures rest == "=" + rest[1..]
  {
  }

  lemma Glued(line: string, a: string, t: string, k: string, u: string, b: string, rest: string, c: string)
    requires line == a + t && t == k + u && u == b + rest && rest == "=" + c
    ensures line == a + (k + (b + ("=" + c)))
  {
  }

  lemma SettingJoins(line: string, k: string, v: string, a: string, b: string, c: string)
    requires IsIdent(k) && SetsIn(line, k, v, a, b, c)
    ensures Setting(line) == Some((k, v))
  {
    hide StripLeft, Strip, Word;
    var rest := b + ("=" + c);
    assert (k + rest)[0] == k[0];
    StripBlanksLeft(a, k + rest);
    assert !IsWordChar(rest[0]) by {
      if b != "" {
        assert rest[0] == b[0];
      }
    }
    WordOf(k, rest);
    assert (k + rest)[|k|..] == rest;
    StripBlanksLeft(b, "=" + c);
    assert ("=" + c)[1..] == c;
  }

  /** A setting is blanks, a word, blanks, an equals sign and the value. */
  lemma SettingIff(line: string, k: string, v: string)
    ensures Setting(line) == Some((k, v)) <==> IsIdent(k) && exists a, b, c :: SetsIn(line, k, v, a, b, c)
  {
    hide Setting, IsIdent, SetsIn;
    if Setting(line) == Some((k, v)) {
      var a, b, c := SettingSplits(line, k, v);
    }
    if IsIdent(k) && exists a, b, c :: SetsIn(line, k, v, a, b, c) {
      var a, b, c :| SetsIn(line, k, v, a, b, c);
      SettingJoins(line, k, v, a, b, c);
    }
  }

  ghost predicate HeaderIn(line: string, a: string, b: string, c: string) {
    AllBlank(a) && AllBlank(c) && line == a + ("[" + b + "]" + c)
  }

  lemma StripIs(line: string, a: string, s: string, c: string)
    requires AllBlank(a) && AllBlank(c) && s != "" && !IsBlank(s[0]) && !IsBlank(s[|s| - 1]) && line == a + (s + c)
    ensures Strip(line, IsBlank) == s
  {
    assert (s + c)[0] == s[0];
    StripBlanksLeft(a, s + c);
    StripBlanksRight(s, c);
  }

  lemma StripSplits(line: string) returns (a: string, c: string)
    ensures AllBlank(a) && AllBlank(c) && line == a + (Strip(line, IsBlank) + c)
  {
    a := LeftBlanks(line);
    c := RightBlanks(StripLeft(line, IsBlank));
  }

  lemma Bracketed()
    ensures "[" + "pgbouncer" + "]" == "[pgbouncer]"
  {
    var s := "[pgbouncer]";
    assert s[..1] == "[" && s[1..10] == "pgbouncer" && s[10..] == "]";
  }

  /** A header is anything in brackets, between blanks; that of the section is its name. */
  lemma HeaderIff(line: string)
    ensures IsHeader(line) <==> exists a, b, c :: HeaderIn(line, a, b, c)
    ensures IsPgbouncerHeader(line) <==> exists a, c :: HeaderIn(line, a, "pgbouncer", c)
  {
    hide StripLeft, StripRight;
    var a, c := StripSplits(line);
    var t := Strip(line, IsBlank);
    if IsHeader(line) {
      var b := t[1..|t| - 1];
      assert t == "[" + b + "]";
      assert HeaderIn(line, a, b, c);
    }
    if IsPgbouncerHeader(line) {
      Bracketed();
      assert HeaderIn(line, a, "pgbouncer", c);
    }
    Bracketed();
    forall a, b, c | HeaderIn(line, a, b, c)
      ensures t == "[" + b + "]"
    {
      var s := "[" + b + "]";
      assert s[|s| - 1] == ']';
      StripIs(line, a, s, c);
    }
  }
}
