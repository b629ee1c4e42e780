/** scripts/spilo_commons.py: the extension lists and the binary directories. */
module SpiloCommons {
  import opened Wrappers
  import opened Strings

  /** A PostgreSQL version: its text and its value as a float. */
  datatype Version = Version(text: string, number: real)

  const LIB_DIR := "/usr/lib/postgresql"

  function GetBinDir(version: string): string {
    LIB_DIR + "/" + version + "/bin"
  }

  /** Each version has its own directory of binaries. */
  lemma BinDirs(v: string, w: string)
    ensures GetBinDir(v) == "/usr/lib/postgresql/" + v + "/bin"
    ensures GetBinDir(v) == GetBinDir(w) <==> v == w
  {
    var head, tail := LIB_DIR + "/", "/bin";
    assert GetBinDir(v) == head + v + tail && GetBinDir(w) == head + w + tail;
    assert GetBinDir(v)[|head|..|head| + |v|] == v && |GetBinDir(v)| == |head| + |v| + 4;
    assert GetBinDir(w)[|head|..|head| + |w|] == w && |GetBinDir(w)| == |head| + |w| + 4;
    assert head == "/usr/lib/postgresql/";
  }

  datatype Extension = Extension(min: real, max: real, preload: bool, extwlist: bool)

  /** The dictionary of known extensions, in insertion order. */
  type Table = seq<(string, Extension)>

  const EXTENSIONS: Table := [
    ("timescaledb", Extension(13.0, 18.0, false, true)),
    ("pg_partman", Extension(13.0, 18.0, false, true)),
    ("pg_stat_statements", Extension(13.0, 18.0, true, true))]

  function Lookup(table: Table, name: string): Option<Extension> {
    if table == [] then None
    else if table[0].0 == name then Some(table[0].1)
    else Lookup(table[1..], name)
  }

  function Keys(table: Table): seq<string> {
    seq(|table|, i requires 0 <= i < |table| => table[i].0)
  }

  predicate InRange(e: Extension, version: real) {
    e.min <= version <= e.max
  }

  /** Unknown names pass; known ones when version and flag allow. */
  predicate Admitted(table: Table, name: string, version: real, extwlist: bool) {
    match Lookup(table, name)
    case None => true
    case Some(e) => InRange(e, version) && (if extwlist then e.extwlist else e.preload)
  }

  function Tokens(list: string): (r: seq<string>)
    ensures r != []
    ensures forall i :: 0 <= i < |r| ==> ',' !in r[i] && Strip(r[i], PyIsSpace) == r[i]
  {
    var parts := Split(list, ',');
    seq(|parts|, i requires 0 <= i < |parts| => Strip(parts[i], PyIsSpace))
  }

  /** The admitted names, each where it occurs first. */
  function Select(table: Table, names: seq<string>, version: real, extwlist: bool): seq<string> {
    if names == [] then []
    else
      var before := Select(table, names[..|names| - 1], version, extwlist);
      var name := names[|names| - 1];
      if name !in before && Admitted(table, name, version, extwlist) then before + [name] else before
  }

  lemma SelectSnoc(table: Table, names: seq<string>, name: string, version: real, extwlist: bool)
    ensures
      var before := Select(table, names, version, extwlist);
      Select(table, names + [name], version, extwlist)
      == if name !in before && Admitted(table, name, version, extwlist) then before + [name] else before
  {
    assert (names + [name])[..|names + [name]| - 1] == names;
  }

  function AppendedNames(table: Table, names: seq<string>, version: real, extwlist: bool): seq<string> {
    Select(table, names + Keys(table), version, extwlist)
  }

  function Appended(table: Table, list: string, version: real, extwlist: bool): string {
    Join(AppendedNames(table, Tokens(list), version, extwlist), ',')
  }

  /** The inner function maybe_append; `seen` are the names it has been given. */
  method MaybeAppend(table: Table, ret: seq<string>, name: string, version: real, extwlist: bool, ghost seen: seq<string>)
    returns (r: seq<string>)
    requires ret == Select(table, seen, version, extwlist)
    ensures r == Select(table, seen + [name], version, extwlist)
  {
    SelectSnoc(table, seen, name, version, extwlist);
    r := if name !in ret && Admitted(table, name, version, extwlist) then ret + [name] else ret;
  }

  /** append_extensions: walks the list, then the known names. */
  method AppendExtensions(table: Table, list: string, version: real, extwlist: bool) returns (r: string)
    ensures r == Appended(table, list, version, extwlist)
  {
    hide Select, Admitted, Join, Strip, Split;
    var ret: seq<string> := [];
    SelectNone(table, version, extwlist);
    var names := Tokens(list);
    var keys := Keys(table);
    for i := 0 to |names|
      invariant ret == Select(table, names[..i], version, extwlist)
    {
      ret := MaybeAppend(table, ret, names[i], version, extwlist, names[..i]);
      assert names[..i + 1] == names[..i] + [names[i]];
    }
    assert names[..|names|] == names + keys[..0];
    for i := 0 to |keys|
      invariant ret == Select(table, names + keys[..i], version, extwlist)
    {
      ret := MaybeAppend(table, ret, keys[i], version, extwlist, names + keys[..i]);
      assert names + keys[..i + 1] == names + keys[..i] + [keys[i]];
    }
    assert keys[..|keys|] == keys;
    r := Join(ret, ',');
  }

  lemma SelectNone(table: Table, version: real, extwlist: bool)
    ensures Select(table, [], version, extwlist) == []
  {
  }

  // ---- What the extension lists promise ------------------------------------

  predicate NoDuplicates(s: seq<string>) {
    forall i, j :: 0 <= i < j < |s| ==> s[i] != s[j]
  }

  /** The result holds exactly the admitted names, once each. */
  lemma {:induction false} SelectMembers(table: Table, names: seq<string>, version: real, extwlist: bool)
    ensures NoDuplicates(Select(table, names, version, extwlist))
    ensures forall x :: x in Select(table, names, version, extwlist) <==>
                        x in names && Admitted(table, x, version, extwlist)
  {
    if names != [] {
      var rest := names[..|names| - 1];
      SelectMembers(table, rest, version, extwlist);
      assert names == rest + [names[|names| - 1]];
    }
  }

  /** Where x occurs first. */
  function FirstIndex(names: seq<string>, x: string): (i: nat)
    requires x in names
    ensures i < |names| && names[i] == x && x !in names[..i]
  {
    if x in names[..|names| - 1] then
      var i := FirstIndex(names[..|names| - 1], x);
      assert names[..|names| - 1][..i] == names[..i];
      i
    else
      assert names[|names| - 1] == x;
      |names| - 1
  }

  /** The names stay in the order of their first occurrence. */
  lemma {:induction false} SelectKeepsOrder(table: Table, names: seq<string>, version: real, extwlist: bool, i: nat, j: nat)
    requires i < j < |Select(table, names, version, extwlist)|
    ensures
      var r := Select(table, names, version, extwlist);
      r[i] in names && r[j] in names && FirstIndex(names, r[i]) < FirstIndex(names, r[j])
  {
    var rest := names[..|names| - 1];
    var r := Select(table, names, version, extwlist);
    SelectMembers(table, names, version, extwlist);
    SelectMembers(table, rest, version, extwlist);
    if j < |Select(table, rest, version, extwlist)| {
      SelectKeepsOrder(table, rest, version, extwlist, i, j);
    } else {
      assert r[i] in rest && r[j] !in rest;
    }
  }

  /** Admitted distinct names pass unchanged. */
  lemma {:induction false} SelectAll(table: Table, names: seq<string>, version: real, extwlist: bool)
    requires NoDuplicates(names)
    requires forall x :: x in names ==> Admitted(table, x, version, extwlist)
    ensures Select(table, names, version, extwlist) == names
  {
    if names != [] {
      var rest, last := names[..|names| - 1], names[|names| - 1];
      SelectAll(table, rest, version, extwlist);
      assert last !in rest;
      assert names == rest + [last];
    }
  }

  /** Names already selected, or not admitted, add nothing. */
  lemma {:induction false} SelectNothingNew(table: Table, names: seq<string>, more: seq<string>, version: real, extwlist: bool)
    requires forall x :: x in more && Admitted(table, x, version, extwlist) ==> x in Select(table, names, version, extwlist)
    ensures Select(table, names + more, version, extwlist) == Select(table, names, version, extwlist)
  {
    if more == [] {
      assert names + more == names;
    } else {
      var rest, last := more[..|more| - 1], more[|more| - 1];
      SelectNothingNew(table, names, rest, version, extwlist);
      SelectSnoc(table, names + rest, last, version, extwlist);
      assert names + more == names + rest + [last];
    }
  }

  lemma KeysLookup(table: Table, x: string)
    ensures x in Keys(table) <==> Lookup(table, x).Some?
  {
    if table != [] {
      KeysLookup(table[1..], x);
      assert Keys(table) == [table[0].0] + Keys(table[1..]);
    }
  }

  /** The table's own names survive splitting, stripping and joining. */
  predicate WellFormed(table: Table) {
    forall i :: 0 <= i < |table| ==>
                  var k := table[i].0;
                  k != "" && ',' !in k && Strip(k, PyIsSpace) == k
  }

  /** A name without blanks or commas stays as it is. */
  predicate PlainName(k: string) {
    k != "" && forall i :: 0 <= i < |k| ==> 'a' <= k[i] <= 'z' || k[i] == '_'
  }

  lemma PlainNameSurvives(k: string)
    requires PlainName(k)
    ensures k != "" && ',' !in k && Strip(k, PyIsSpace) == k
  {
    assert k[0] != ' ' && k[|k| - 1] != ' ';
  }

  lemma ExtensionsWellFormed()
    ensures WellFormed(EXTENSIONS)
  {
    hide PyIsSpace, Strip;
    PlainNameSurvives(EXTENSIONS[0].0);
    PlainNameSurvives(EXTENSIONS[1].0);
    PlainNameSurvives(EXTENSIONS[2].0);
  }

  /** Exactly the names of `names` that are unknown or admitted, and all
      admitted known names, come out. */
  lemma AppendedMembers(table: Table, names: seq<string>, version: real, extwlist: bool)
    ensures
      var r := AppendedNames(table, names, version, extwlist);
      && NoDuplicates(r)
      && (forall x :: Lookup(table, x).None? ==> (x in r <==> x in names))
      && (forall x :: Lookup(table, x).Some? ==>
            var e := Lookup(table, x).value;
            x in r <==> e.min <= version <= e.max && (if extwlist then e.extwlist else e.preload))
      && (forall x :: Lookup(table, x).Some? ==> (x in r <==> Admitted(table, x, version, extwlist)))
  {
    SelectMembers(table, names + Keys(table), version, extwlist);
    forall x
      ensures x in Keys(table) <==> Lookup(table, x).Some?
    {
      KeysLookup(table, x);
    }
  }

  /** With the real table: from version 13 to 18 and only then pg_stat_statements is preloaded,
      and all three are on the list of extensions that may be created. */
  lemma ShippedMembers(names: seq<string>, version: real)
    ensures
      var preloaded, allowed := AppendedNames(EXTENSIONS, names, version, false), AppendedNames(EXTENSIONS, names, version, true);
      && "timescaledb" !in preloaded && "pg_partman" !in preloaded
      && ("pg_stat_statements" in preloaded <==> 13.0 <= version <= 18.0)
      && ("timescaledb" in allowed <==> 13.0 <= version <= 18.0)
      && ("pg_partman" in allowed <==> 13.0 <= version <= 18.0)
      && ("pg_stat_statements" in allowed <==> 13.0 <= version <= 18.0)
  {
    hide AppendedNames;
    AppendedMembers(EXTENSIONS, names, version, false);
    AppendedMembers(EXTENSIONS, names, version, true);
    assert |EXTENSIONS[0].0| == 11 && |EXTENSIONS[1].0| == 10 && |EXTENSIONS[2].0| == 18;
    ThirdEntries();
  }

  lemma ThirdEntries()
    ensures Lookup(EXTENSIONS, "timescaledb") == Some(Extension(13.0, 18.0, false, true))
    ensures Lookup(EXTENSIONS, "pg_partman") == Some(Extension(13.0, 18.0, false, true))
    ensures Lookup(EXTENSIONS, "pg_stat_statements") == Some(Extension(13.0, 18.0, true, true))
  {
    assert |"timescaledb"| == 11 && |"pg_partman"| == 10 && |"pg_stat_statements"| == 18;
    assert EXTENSIONS[1..][0] == EXTENSIONS[1] && EXTENSIONS[1..][1..][0] == EXTENSIONS[2];
  }

  lemma AppendedClean(table: Table, list: string, version: real, extwlist: bool)
    requires WellFormed(table)
    ensures
      var r := AppendedNames(table, Tokens(list), version, extwlist);
      forall i :: 0 <= i < |r| ==> ',' !in r[i] && Strip(r[i], PyIsSpace) == r[i]
  {
    var names := Tokens(list) + Keys(table);
    SelectMembers(table, names, version, extwlist);
    var r := Select(table, names, version, extwlist);
    forall i | 0 <= i < |r|
      ensures ',' !in r[i] && Strip(r[i], PyIsSpace) == r[i]
    {
      assert r[i] in names;
      var k :| 0 <= k < |names| && names[k] == r[i];
    }
  }

  /** Reading the joined list back gives the names, or one empty name. */
  lemma TokensOfAppended(table: Table, list: string, version: real, extwlist: bool)
    requires WellFormed(table)
    ensures
      var r := AppendedNames(table, Tokens(list), version, extwlist);
      Tokens(Appended(table, list, version, extwlist)) == if r == [] then [""] else r
  {
    var r := AppendedNames(table, Tokens(list), version, extwlist);
    AppendedClean(table, list, version, extwlist);
    SplitJoin(r, ',');
    var t := Tokens(Appended(table, list, version, extwlist));
    if r != [] {
      assert forall i :: 0 <= i < |r| ==> t[i] == r[i];
    } else {
      assert t == [""];
    }
  }

  lemma EmptyNameUnknown(table: Table)
    requires WellFormed(table)
    ensures Lookup(table, "").None?
  {
    KeysLookup(table, "");
  }

  /** Appending twice is appending once, as strings. */
  lemma AppendIdempotent(table: Table, list: string, version: real, extwlist: bool)
    requires WellFormed(table)
    ensures
      var once := Appended(table, list, version, extwlist);
      Appended(table, once, version, extwlist) == once
  {
    var names := AppendedNames(table, Tokens(list), version, extwlist);
    TokensOfAppended(table, list, version, extwlist);
    AppendedMembers(table, Tokens(list), version, extwlist);
    EmptyNameUnknown(table);
    forall x | x in Keys(table) && Admitted(table, x, version, extwlist)
      ensures x in names
    {
      KeysLookup(table, x);
    }
    var start := if names == [] then [""] else names;
    SelectMembers(table, Tokens(list) + Keys(table), version, extwlist);
    SelectAll(table, start, version, extwlist);
    SelectNothingNew(table, start, Keys(table), version, extwlist);
    assert AppendedNames(table, start, version, extwlist) == start;
    assert Join([""], ',') == Join([], ',');
  }

  /** Upgrading in two steps keeps the same names as upgrading in one: on name
      lists always; the joined strings are another matter. */
  lemma UpgradeInSteps(table: Table, names: seq<string>, v1: real, v2: real, extwlist: bool, x: string)
    ensures x in AppendedNames(table, AppendedNames(table, names, v1, extwlist), v2, extwlist)
            <==> x in AppendedNames(table, names, v2, extwlist)
  {
    AppendedMembers(table, names, v1, extwlist);
    AppendedMembers(table, names, v2, extwlist);
    AppendedMembers(table, AppendedNames(table, names, v1, extwlist), v2, extwlist);
  }

  ghost predicate SameNames(a: seq<string>, b: seq<string>) {
    forall x :: x in a <==> x in b
  }

  /** A listed name that the table does not know. */
  predicate HasUnknown(table: Table, names: seq<string>) {
    exists i :: 0 <= i < |names| && Lookup(table, names[i]).None?
  }

  /** An entry of the table that the version and the flag admit. */
  predicate AdmitsAny(table: Table, version: real, extwlist: bool) {
    exists i :: 0 <= i < |table| && Admitted(table, table[i].0, version, extwlist)
  }

  /** Nothing comes out exactly when nothing is unknown and nothing is admitted. */
  lemma AppendedNoneIff(table: Table, names: seq<string>, version: real, extwlist: bool)
    ensures AppendedNames(table, names, version, extwlist) == []
            <==> !HasUnknown(table, names) && !AdmitsAny(table, version, extwlist)
  {
    hide Admitted, Lookup;
    var r := AppendedNames(table, names, version, extwlist);
    AppendedMembers(table, names, version, extwlist);
    if HasUnknown(table, names) {
      var i :| 0 <= i < |names| && Lookup(table, names[i]).None?;
      assert names[i] in r;
    }
    if AdmitsAny(table, version, extwlist) {
      var i :| 0 <= i < |table| && Admitted(table, table[i].0, version, extwlist);
      assert Keys(table)[i] == table[i].0;
      KeysLookup(table, table[i].0);
      assert table[i].0 in r;
    }
    if r != [] {
      var x := r[0];
      KeysLookup(table, x);
      if Lookup(table, x).Some? {
        var i :| 0 <= i < |Keys(table)| && Keys(table)[i] == x;
        assert Admitted(table, table[i].0, version, extwlist);
      }
    }
  }

  /** On the joined strings two steps keep the names exactly when the list has an unknown name,
      or the first version admits an entry of the table, or the second admits none. */
  lemma UpgradeStringsInSteps(table: Table, list: string, v1: real, v2: real, extwlist: bool)
    requires WellFormed(table)
    ensures
      SameNames(Tokens(Appended(table, Appended(table, list, v1, extwlist), v2, extwlist)),
                Tokens(Appended(table, list, v2, extwlist)))
      <==> || HasUnknown(table, Tokens(list)) || AdmitsAny(table, v1, extwlist)
           || !AdmitsAny(table, v2, extwlist)
  {
    hide Appended, AppendedNames, Tokens, HasUnknown, AdmitsAny;
    UpgradeStringsUnlessEmpty(table, list, v1, v2, extwlist);
    AppendedNoneIff(table, Tokens(list), v1, extwlist);
    AppendedNoneIff(table, Tokens(list), v2, extwlist);
  }

  /** At an input: from a version older than all entries of the real table, a known name is
      dropped, the empty list reads as one empty name, and that stays. */
  lemma StepsAddEmptyName()
    ensures !SameNames(Tokens(Appended(EXTENSIONS, Appended(EXTENSIONS, "timescaledb", 12.0, false), 13.0, false)),
                       Tokens(Appended(EXTENSIONS, "timescaledb", 13.0, false)))
  {
    hide Appended, Tokens, Strip, PyIsSpace;
    ExtensionsWellFormed();
    UpgradeStringsInSteps(EXTENSIONS, "timescaledb", 12.0, 13.0, false);
    PlainNameTokens("timescaledb");
    RealTable();
    assert !HasUnknown(EXTENSIONS, ["timescaledb"]);
    assert !AdmitsAny(EXTENSIONS, 12.0, false);
    assert Admitted(EXTENSIONS, EXTENSIONS[2].0, 13.0, false);
  }

  lemma PlainNameTokens(k: string)
    requires PlainName(k)
    ensures Tokens(k) == [k]
  {
    hide PyIsSpace;
    PlainNameSurvives(k);
    SplitPlain(k, ',');
  }

  /** The entries of the real table. */
  lemma RealTable()
    ensures forall i :: 0 <= i < 3 ==> Lookup(EXTENSIONS, EXTENSIONS[i].0) == Some(EXTENSIONS[i].1)
    ensures |EXTENSIONS| == 3 && forall i :: 0 <= i < 3 ==> PlainName(EXTENSIONS[i].0)
  {
    var a, b, c := EXTENSIONS[0].0, EXTENSIONS[1].0, EXTENSIONS[2].0;
    assert |a| == 11 && |b| == 10 && |c| == 18;
    var rest := EXTENSIONS[1..];
    assert rest[0] == EXTENSIONS[1] && rest[1..][0] == EXTENSIONS[2];
    assert Lookup(rest[1..], c) == Some(EXTENSIONS[2].1);
    assert Lookup(rest, c) == Lookup(rest[1..], c);
    assert Lookup(rest, b) == Some(EXTENSIONS[1].1);
  }

  lemma UpgradeStringsUnlessEmpty(table: Table, list: string, v1: real, v2: real, extwlist: bool)
    requires WellFormed(table)
    ensures
      var first := AppendedNames(table, Tokens(list), v1, extwlist);
      var direct := AppendedNames(table, Tokens(list), v2, extwlist);
      SameNames(Tokens(Appended(table, Appended(table, list, v1, extwlist), v2, extwlist)),
                Tokens(Appended(table, list, v2, extwlist)))
      <==> first != [] || direct == []
  {
    hide Tokens, Appended, AppendedNames, Admitted, Lookup, WellFormed;
    var mid := Appended(table, list, v1, extwlist);
    var first := AppendedNames(table, Tokens(list), v1, extwlist);
    var direct := AppendedNames(table, Tokens(list), v2, extwlist);
    var stepped := AppendedNames(table, Tokens(mid), v2, extwlist);
    TokensOfAppended(table, list, v1, extwlist);
    TokensOfAppended(table, list, v2, extwlist);
    TokensOfAppended(table, mid, v2, extwlist);
    AppendedMembers(table, Tokens(list), v1, extwlist);
    AppendedMembers(table, Tokens(list), v2, extwlist);
    AppendedMembers(table, Tokens(mid), v2, extwlist);
    EmptyNameUnknown(table);
    if first != [] {
      forall x
        ensures x in stepped <==> x in direct
      {
        UpgradeInSteps(table, Tokens(list), v1, v2, extwlist, x);
      }
      assert stepped == [] <==> direct == [] by {
        if stepped != [] { assert stepped[0] in direct; }
        if direct != [] { assert direct[0] in stepped; }
      }
    } else {
      assert "" in stepped && "" !in direct;
    }
  }

  // ---- adjust_extensions -----------------------------------------------------

  predicate RepeatsUnknown(table: Table, names: seq<string>) {
    exists i, j :: 0 <= i < j < |names| && names[i] == names[j] && Lookup(table, names[i]).None?
  }

  predicate Adjustable(table: Table, name: string, version: real, extwlist: bool) {
    match Lookup(table, name)
    case None => true
    case Some(e) => InRange(e, version) && (!extwlist || e.extwlist)
  }

  function AdjustedNames(table: Table, names: seq<string>, version: real, extwlist: bool): seq<string> {
    if names == [] then []
    else
      var before := AdjustedNames(table, names[..|names| - 1], version, extwlist);
      var name := names[|names| - 1];
      if Adjustable(table, name, version, extwlist) then before + [name] else before
  }

  lemma AdjustedSnoc(table: Table, names: seq<string>, name: string, version: real, extwlist: bool)
    ensures
      var before := AdjustedNames(table, names, version, extwlist);
      AdjustedNames(table, names + [name], version, extwlist)
      == if Adjustable(table, name, version, extwlist) then before + [name] else before
  {
    assert (names + [name])[..|names + [name]| - 1] == names;
  }

  lemma RepeatsSnoc(table: Table, names: seq<string>, name: string)
    requires !RepeatsUnknown(table, names)
    ensures RepeatsUnknown(table, names + [name]) <==> name in names && Lookup(table, name).None?
  {
    var s := names + [name];
    if name in names && Lookup(table, name).None? {
      var k :| 0 <= k < |names| && names[k] == name;
      assert s[k] == s[|names|];
    } else {
      forall i, j | 0 <= i < j < |s| && s[i] == s[j]
        ensures Lookup(table, s[i]).Some?
      {
        if j < |names| {
          assert names[i] == names[j];
        } else {
          assert names[i] == name;
        }
      }
    }
  }

  lemma RepeatsNone(table: Table)
    ensures !RepeatsUnknown(table, [])
  {
  }

  lemma RepeatsPrefix(table: Table, names: seq<string>, n: nat)
    requires n <= |names| && RepeatsUnknown(table, names[..n])
    ensures RepeatsUnknown(table, names)
  {
    var i, j :| 0 <= i < j < n && names[..n][i] == names[..n][j] && Lookup(table, names[..n][i]).None?;
    assert names[i] == names[j];
  }

  /** What adjust_extensions does with a list: it raises exactly when an unknown
      name is repeated, and otherwise only drops the known names that the
      version or the flag rules out. */
  function Adjusted(table: Table, list: string, version: real, extwlist: bool): Call<string> {
    var names := Tokens(list);
    if RepeatsUnknown(table, names) then Raised
    else Returned(Join(AdjustedNames(table, names, version, extwlist), ','))
  }

  lemma {:induction false} AdjustedPass(table: Table, names: seq<string>, version: real, extwlist: bool)
    ensures forall x :: x in AdjustedNames(table, names, version, extwlist) <==>
                        x in names && Adjustable(table, x, version, extwlist)
  {
    if names != [] {
      var rest := names[..|names| - 1];
      AdjustedPass(table, rest, version, extwlist);
      assert names == rest + [names[|names| - 1]];
    }
  }

  /** Exactly the listed names that the table does not know, or has for the version and the
      flag. */
  lemma AdjustedMembers(table: Table, names: seq<string>, version: real, extwlist: bool)
    ensures forall x :: x in AdjustedNames(table, names, version, extwlist) <==>
              x in names && match Lookup(table, x)
                            case None => true
                            case Some(e) => e.min <= version <= e.max && (!extwlist || e.extwlist)
  {
    AdjustedPass(table, names, version, extwlist);
  }

  /** adjust_extensions: the condition reads `(not seen and unknown) or in
      range and ...`, so a repeated unknown name indexes None and raises. */
  method AdjustExtensions(table: Table, list: string, version: real, extwlist: bool) returns (r: Call<string>)
    ensures r == Adjusted(table, list, version, extwlist)
  {
    hide RepeatsUnknown, Join, Strip, Split;
    var ret: seq<string> := [];
    var names := Tokens(list);
    RepeatsNone(table);
    for i := 0 to |names|
      invariant ret == AdjustedNames(table, names[..i], version, extwlist)
      invariant !RepeatsUnknown(table, names[..i])
    {
      var name := names[i];
      var value := Lookup(table, name);
      assert names[..i + 1] == names[..i] + [name];
      AdjustedSnoc(table, names[..i], name, version, extwlist);
      RepeatsSnoc(table, names[..i], name);
      AdjustedPass(table, names[..i], version, extwlist);
      if name !in ret && value.None? {
        ret := ret + [name];
      } else if value.None? {
        RepeatsPrefix(table, names, i + 1);
        return Raised;
      } else if InRange(value.value, version) && (!extwlist || value.value.extwlist) {
        ret := ret + [name];
      }
    }
    assert names[..|names|] == names;
    r := Returned(Join(ret, ','));
  }
}
