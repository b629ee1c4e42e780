/** The server parameters that the upgrade changes and puts back, on values. */
module ServerParameters {
  import opened Wrappers
  import opened Strings
  import opened SpiloCommons

  /** A parameter name: archive_mode, shared_preload_libraries or another one. */
  datatype Name = ArchiveMode | SharedPreload | OtherName(text: string)

  type Parameters = map<Name, string>

  /** A key of recovery_conf: one of the four targets, or another one. */
  datatype RecoveryKey = TargetName | TargetTime | TargetXid | TargetLsn | OtherKey(text: string)

  /** What a bootstrap method is configured with. */
  datatype Method = Method(command: string, recoveryConf: map<RecoveryKey, string>)

  /** Saved values; None stands for a parameter that was not set. */
  type Saved = seq<(Name, Option<string>)>

  /** dict.get(name) */
  function Get(p: Parameters, name: Name): Option<string> {
    if name in p then Some(p[name]) else None
  }

  /** A value Python takes as true. */
  predicate Given(v: Option<string>) {
    v.Some? && v.value != ""
  }

  /** Put the saved values back; one saved as missing is popped, which raises
      when it is still missing. */
  function Restored(p: Parameters, saved: Saved): Call<Parameters>
    decreases |saved|
  {
    if saved == [] then Returned(p)
    else
      var (name, value) := saved[0];
      match value
      case Some(v) => Restored(p[name := v], saved[1..])
      case None => if name in p then Restored(p - {name}, saved[1..]) else Raised
  }

  function RestoredIfSaved(p: Parameters, saved: Option<Saved>): Call<Parameters> {
    if saved.Some? then Restored(p, saved.value) else Returned(p)
  }

  /** The parameters initdb runs with: restored, and with the libraries of the
      new version. */
  function InitDbParameters(p: Parameters, saved: Option<Saved>, table: Table, version: Version): Call<Parameters> {
    var q :- RestoredIfSaved(p, saved);
    var libs := Get(q, SharedPreload);
    Returned(if Given(libs) then q[SharedPreload := Appended(table, libs.value, version.number, false)] else q)
  }

  /** The parameters after prepare_new_pgdata: those of initdb, but with the
      libraries the old server runs with, if any. */
  function PreparedParameters(p: Parameters, saved: Option<Saved>, table: Table, version: Version): Call<Parameters> {
    var q :- InitDbParameters(p, saved, table, version);
    var libs := Get(p, SharedPreload);
    Returned(if Given(libs) then q[SharedPreload := libs.value] else q)
  }

  /** The libraries of the new version, as prepare_new_pgdata remembers them. */
  function PreparedPreload(p: Parameters, saved: Option<Saved>, before: Option<string>, table: Table, version: Version): Option<string> {
    match RestoredIfSaved(p, saved)
    case Raised => before
    case Returned(q) =>
      var libs := Get(q, SharedPreload);
      if Given(libs) then Some(Appended(table, libs.value, version.number, false)) else before
  }

  /** What start_old_cluster saves. */
  function SavedParameters(p: Parameters): Saved {
    [(ArchiveMode, Get(p, ArchiveMode)), (SharedPreload, Get(p, SharedPreload))]
  }

  /** What adjust_shared_preload_libraries makes of the libraries. */
  function AdjustedLibs(p: Parameters, table: Table, version: Version): Call<Parameters> {
    var libs := Get(p, SharedPreload);
    if !Given(libs) then Returned(p)
    else
      var adjusted :- Adjusted(table, libs.value, version.number, false);
      Returned(p[SharedPreload := adjusted])
  }

  /** The parameters after start_old_cluster. When adjusting the libraries raises
      they stay, and a retried recovery runs with that. */
  function StartedParameters(p: Parameters, table: Table, version: Version): Parameters {
    var off := p[ArchiveMode := "off"];
    match AdjustedLibs(off, table, version)
    case Raised => off
    case Returned(q) => q
  }

  /** adjust_extensions raises on these libraries: a name the table does not know is repeated. */
  predicate LibrariesRaise(p: Parameters, table: Table, version: Version) {
    SharedPreload in p && p[SharedPreload] != "" && RepeatsUnknown(table, Tokens(p[SharedPreload]))
  }

  /** What the server of the old version runs with: nothing is archived, of the libraries
      exactly those that the table does not rule out for the version, and every other parameter
      is as it was. A list that cannot be adjusted stays as it was. */
  ghost predicate RunsOld(p: Parameters, q: Parameters, table: Table, version: Version) {
    && ArchiveMode in q && q[ArchiveMode] == "off"
    && q - {ArchiveMode, SharedPreload} == p - {ArchiveMode, SharedPreload}
    && (SharedPreload in q <==> SharedPreload in p)
    && (SharedPreload in p && LibrariesRaise(p, table, version) ==> q[SharedPreload] == p[SharedPreload])
    && (SharedPreload in p && !LibrariesRaise(p, table, version) ==>
          forall x :: x != "" ==>
            (x in Tokens(q[SharedPreload]) <==> x in Tokens(p[SharedPreload]) && RunsIn(table, x, version.number)))
  }

  /** The table does not rule the name out for the version. */
  predicate RunsIn(table: Table, name: string, version: real) {
    Lookup(table, name).Some? ==> Lookup(table, name).value.min <= version <= Lookup(table, name).value.max
  }

  lemma StartedRunsOld(p: Parameters, table: Table, version: Version)
    ensures RunsOld(p, StartedParameters(p, table, version), table, version)
  {
    hide Tokens, Join, AdjustedNames, RepeatsUnknown, Lookup;
    var off, q := p[ArchiveMode := "off"], StartedParameters(p, table, version);
    assert q - {ArchiveMode, SharedPreload} == p - {ArchiveMode, SharedPreload};
    if SharedPreload in p && p[SharedPreload] != "" && !LibrariesRaise(p, table, version) {
      AdjustedTokens(table, p[SharedPreload], version.number);
    } else if SharedPreload in p && p[SharedPreload] == "" {
      BlankTokens();
    }
  }

  lemma BlankTokens()
    ensures forall x :: x in Tokens("") ==> x == ""
  {
  }

  /** Reading the adjusted list back gives the names that were left. */
  lemma AdjustedTokens(table: Table, list: string, version: real)
    ensures
      var names := AdjustedNames(table, Tokens(list), version, false);
      forall x :: x != "" ==>
        (x in Tokens(Join(names, ',')) <==> x in Tokens(list) && RunsIn(table, x, version))
  {
    var names := AdjustedNames(table, Tokens(list), version, false);
    AdjustedPass(table, Tokens(list), version, false);
    forall i | 0 <= i < |names|
      ensures ',' !in names[i] && Strip(names[i], PyIsSpace) == names[i]
    {
      assert names[i] in Tokens(list);
    }
    SplitJoin(names, ',');
    BlankTokens();
    var read := Tokens(Join(names, ','));
    if names != [] {
      assert read == names;
    }
  }

  lemma StartedByLibs(p: Parameters, table: Table, version: Version)
    ensures
      var off := p[ArchiveMode := "off"];
      && (AdjustedLibs(off, table, version).Raised? <==> LibrariesRaise(p, table, version))
      && StartedParameters(p, table, version)
         == if AdjustedLibs(off, table, version).Raised? then off else AdjustedLibs(off, table, version).value
  {
  }

  /** The parameters after a recovery with the old binaries and do_upgrade. */
  function UpgradedParameters(p: Parameters, table: Table, oldVersion: Version, newVersion: Version): Call<Parameters> {
    var started := StartedParameters(p, table, oldVersion);
    var saved := Some(SavedParameters(p));
    var prepared :- PreparedParameters(started, saved, table, newVersion);
    match PreparedPreload(started, saved, None, table, newVersion)
    case None => Raised
    case Some(libs) => Returned(if libs != "" then prepared[SharedPreload := libs] else prepared)
  }

  /** What the recovery and the upgrade come to, by the lists they compute. */
  lemma RecoveredByLists(p: Parameters, table: Table, oldVersion: Version, newVersion: Version)
    ensures
      var final := UpgradedParameters(p, table, oldVersion, newVersion);
      var libs := Get(p, SharedPreload);
      && (final.Returned? <==> Given(libs))
      && (final.Returned? ==>
            var appended := Appended(table, libs.value, newVersion.number, false);
            && final.value - {SharedPreload} == p - {SharedPreload}
            && (final.value == p[SharedPreload := appended] <==>
                  appended != "" || !Given(Get(StartedParameters(p, table, oldVersion), SharedPreload))))
  {
    hide Appended, StartedParameters, Restored;
    var started := StartedParameters(p, table, oldVersion);
    PreparedForRecovery(p, table, oldVersion, newVersion);
    if Given(Get(p, SharedPreload)) {
      var appended := Appended(table, p[SharedPreload], newVersion.number, false);
      var prepared := PreparedParameters(started, Some(SavedParameters(p)), table, newVersion).value;
      var libs := Get(started, SharedPreload);
      assert prepared == if Given(libs) then p[SharedPreload := appended][SharedPreload := libs.value] else p[SharedPreload := appended];
      assert prepared[SharedPreload := appended] == p[SharedPreload := appended];
      assert prepared - {SharedPreload} == p - {SharedPreload};
      if appended == "" && Given(libs) {
        assert prepared[SharedPreload] == libs.value != p[SharedPreload := appended][SharedPreload];
      }
    }
  }

  /** prepare_new_pgdata in between raises exactly when no libraries are set. */
  lemma PreparedForRecovery(p: Parameters, table: Table, oldVersion: Version, newVersion: Version)
    ensures
      var started := StartedParameters(p, table, oldVersion);
      var restored := Restored(started, SavedParameters(p));
      if SharedPreload in p then restored == Returned(p) else restored.Raised?
  {
    var started := StartedParameters(p, table, oldVersion);
    var saved := SavedParameters(p);
    var archived := if ArchiveMode in p then started[ArchiveMode := p[ArchiveMode]] else started - {ArchiveMode};
    assert saved[1..][0] == saved[1] && saved[1..][1..] == [];
    assert Restored(started, saved) == Restored(archived, saved[1..]);
    if SharedPreload in p {
      var q := archived[SharedPreload := p[SharedPreload]];
      assert Restored(archived, saved[1..]) == Restored(q, []);
      assert q == p;
    } else {
      assert SharedPreload !in archived;
    }
  }

  /** On a live primary nothing was saved, and prepare_new_pgdata leaves the
      parameters as they are. */
  lemma LiveParametersUnchanged(p: Parameters, table: Table, version: Version)
    ensures PreparedParameters(p, None, table, version) == Returned(p)
  {
    if SharedPreload in p {
      var v := Appended(table, p[SharedPreload], version.number, false);
      assert p[SharedPreload := v][SharedPreload := p[SharedPreload]] == p;
    }
  }

  // ---- When the libraries are those of the new version --------------------------------------

  /** The list has nothing for the new version: every name is blank or known, and no entry of
      the table is admitted. */
  predicate NothingFor(table: Table, names: seq<string>, version: real) {
    && (forall i :: 0 <= i < |names| ==> names[i] == "" || Lookup(table, names[i]).Some?)
    && !AdmitsAny(table, version, false)
  }

  /** The old server ran with libraries nevertheless: one of the names is in range for it, or
      the list could not be adjusted because of a repeated blank. */
  predicate OldHadSome(table: Table, names: seq<string>, version: real) {
    || RepeatsUnknown(table, names)
    || exists i :: 0 <= i < |names| && Lookup(table, names[i]).Some? && InRange(Lookup(table, names[i]).value, version)
  }

  lemma JoinBlank(names: seq<string>)
    requires NoDuplicates(names) && forall i :: 0 <= i < |names| ==> names[i] == ""
    ensures Join(names, ',') == ""
  {
    if |names| > 1 {
      FirstTwoDiffer(names);
    }
  }

  lemma FirstTwoDiffer(names: seq<string>)
    requires NoDuplicates(names) && |names| > 1
    ensures names[0] != names[1]
  {
  }

  lemma NoneAdmitted(table: Table, x: string, version: real)
    requires Lookup(table, x).Some? && !AdmitsAny(table, version, false)
    ensures !Admitted(table, x, version, false)
  {
    KeysLookup(table, x);
    var i :| 0 <= i < |Keys(table)| && Keys(table)[i] == x;
    assert table[i].0 == x;
  }

  lemma KnownIsNoBlank(table: Table, x: string)
    requires WellFormed(table) && Lookup(table, x).Some?
    ensures x != ""
  {
    KeysLookup(table, x);
    var i :| 0 <= i < |Keys(table)| && Keys(table)[i] == x;
  }

  lemma AppendedBlankIff(table: Table, list: string, version: real)
    requires WellFormed(table)
    ensures Appended(table, list, version, false) == "" <==> NothingFor(table, Tokens(list), version)
  {
    hide Lookup, Admitted, Tokens, Join, AppendedNames, WellFormed;
    var names := AppendedNames(table, Tokens(list), version, false);
    AppendedMembers(table, Tokens(list), version, false);
    if NothingFor(table, Tokens(list), version) {
      forall x | x in names
        ensures x == ""
      {
        if Lookup(table, x).Some? {
          NoneAdmitted(table, x, version);
        } else {
          var i :| 0 <= i < |Tokens(list)| && Tokens(list)[i] == x;
        }
      }
      assert forall i :: 0 <= i < |names| ==> names[i] in names;
      JoinBlank(names);
    } else if AdmitsAny(table, version, false) {
      var i :| 0 <= i < |table| && Admitted(table, table[i].0, version, false);
      assert Keys(table)[i] == table[i].0;
      KeysLookup(table, table[i].0);
      KnownIsNoBlank(table, table[i].0);
      JoinHolds(names, table[i].0);
    } else {
      var i :| 0 <= i < |Tokens(list)| && Tokens(list)[i] != "" && Lookup(table, Tokens(list)[i]).None?;
      JoinHolds(names, Tokens(list)[i]);
    }
  }

  /** Adjusting a list repeats no unknown name that the list does not repeat. */
  lemma {:induction false} AdjustedRepeats(table: Table, names: seq<string>, version: real)
    requires !RepeatsUnknown(table, names)
    ensures !RepeatsUnknown(table, AdjustedNames(table, names, version, false))
  {
    hide RepeatsUnknown;
    if names == [] {
      RepeatsNone(table);
    } else {
      var rest, last := names[..|names| - 1], names[|names| - 1];
      assert names == rest + [last];
      if RepeatsUnknown(table, rest) {
        RepeatsPrefix(table, names, |rest|);
      }
      RepeatsSnoc(table, rest, last);
      AdjustedRepeats(table, rest, version);
      AdjustedPass(table, rest, version, false);
      RepeatsSnoc(table, AdjustedNames(table, rest, version, false), last);
    }
  }

  lemma OldLibrariesIff(p: Parameters, table: Table, oldVersion: Version, newVersion: Version)
    requires WellFormed(table) && Given(Get(p, SharedPreload))
    requires NothingFor(table, Tokens(p[SharedPreload]), newVersion.number)
    ensures Given(Get(StartedParameters(p, table, oldVersion), SharedPreload))
            <==> OldHadSome(table, Tokens(p[SharedPreload]), oldVersion.number)
  {
    hide Lookup, Tokens, Join, AdjustedNames, WellFormed, RepeatsUnknown;
    var tokens, v := Tokens(p[SharedPreload]), oldVersion.number;
    var names := AdjustedNames(table, tokens, v, false);
    AdjustedPass(table, tokens, v, false);
    if !RepeatsUnknown(table, tokens) {
      AdjustedRepeats(table, tokens, v);
      if OldHadSome(table, tokens, v) {
        var i :| 0 <= i < |tokens| && Lookup(table, tokens[i]).Some? && InRange(Lookup(table, tokens[i]).value, v);
        KnownIsNoBlank(table, tokens[i]);
        JoinHolds(names, tokens[i]);
      } else {
        forall i | 0 <= i < |names|
          ensures Lookup(table, names[i]).None? && names[i] == ""
        {
          assert names[i] in names;
          var j :| 0 <= j < |tokens| && tokens[j] == names[i];
        }
        OnlyBlanks(table, names);
      }
    }
  }

  lemma UnknownOnce(table: Table, names: seq<string>)
    requires !RepeatsUnknown(table, names) && forall i :: 0 <= i < |names| ==> Lookup(table, names[i]).None?
    ensures NoDuplicates(names)
  {
  }

  lemma OnlyBlanks(table: Table, names: seq<string>)
    requires WellFormed(table) && !RepeatsUnknown(table, names)
    requires forall i :: 0 <= i < |names| ==> Lookup(table, names[i]).None? && names[i] == ""
    ensures Join(names, ',') == ""
  {
    hide Join, Lookup, WellFormed;
    UnknownOnce(table, names);
    JoinBlank(names);
  }

  /** It succeeds exactly when shared_preload_libraries was set and not empty. archive_mode is
      then back as it was or absent and every other parameter unchanged; the libraries are the
      original ones extended for the new version, exactly unless the list has nothing for the
      new version while the old server ran with some. */
  lemma RecoveryRestoresParameters(p: Parameters, table: Table, oldVersion: Version, newVersion: Version)
    requires WellFormed(table)
    ensures
      var final := UpgradedParameters(p, table, oldVersion, newVersion);
      && (final.Returned? <==> Given(Get(p, SharedPreload)))
      && (final.Returned? ==>
            var tokens := Tokens(p[SharedPreload]);
            && final.value - {SharedPreload} == p - {SharedPreload}
            && (final.value == p[SharedPreload := Appended(table, p[SharedPreload], newVersion.number, false)] <==>
                  !(NothingFor(table, tokens, newVersion.number) && OldHadSome(table, tokens, oldVersion.number))))
  {
    hide Appended, StartedParameters, UpgradedParameters, NothingFor, OldHadSome, Tokens, WellFormed;
    RecoveredByLists(p, table, oldVersion, newVersion);
    if Given(Get(p, SharedPreload)) {
      AppendedBlankIff(table, p[SharedPreload], newVersion.number);
      if NothingFor(table, Tokens(p[SharedPreload]), newVersion.number) {
        OldLibrariesIff(p, table, oldVersion, newVersion);
      }
    }
  }

  /** With the real table and a new version it knows, the libraries are always the original
      ones extended for it. */
  lemma KnownVersionRecovers(p: Parameters, oldVersion: Version, newVersion: Version)
    requires 13.0 <= newVersion.number <= 18.0
    ensures UpgradedParameters(p, EXTENSIONS, oldVersion, newVersion)
            == if Given(Get(p, SharedPreload))
               then Returned(p[SharedPreload := Appended(EXTENSIONS, p[SharedPreload], newVersion.number, false)])
               else Raised
  {
    hide Appended, StartedParameters, UpgradedParameters;
    RecoveredByLists(p, EXTENSIONS, oldVersion, newVersion);
    if Given(Get(p, SharedPreload)) {
      KnownVersionHasLibraries(p[SharedPreload], newVersion.number);
    }
  }

  /** At an input: an upgrade to a version newer than all entries of the real table keeps the
      library the old server ran with, though nothing is left of it for the new version. */
  lemma OldLibraryStays()
    ensures
      var p := map[SharedPreload := "timescaledb"];
      var final := UpgradedParameters(p, EXTENSIONS, Version("18", 18.0), Version("19", 19.0));
      final.Returned? && final.value != p[SharedPreload := Appended(EXTENSIONS, "timescaledb", 19.0, false)]
  {
    hide Appended, StartedParameters, UpgradedParameters, Tokens, RepeatsUnknown, Strip, PyIsSpace;
    var p := map[SharedPreload := "timescaledb"];
    ExtensionsWellFormed();
    RecoveryRestoresParameters(p, EXTENSIONS, Version("18", 18.0), Version("19", 19.0));
    PlainNameTokens("timescaledb");
    RealTable();
    assert ["timescaledb"][0] == EXTENSIONS[0].0;
  }

  /** With the real table the extended list is never empty for a version it knows. */
  lemma KnownVersionHasLibraries(list: string, version: real)
    requires 13.0 <= version <= 18.0
    ensures Appended(EXTENSIONS, list, version, false) != ""
  {
    hide Appended, Tokens;
    ExtensionsWellFormed();
    AppendedBlankIff(EXTENSIONS, list, version);
    RealTable();
    assert Admitted(EXTENSIONS, EXTENSIONS[2].0, version, false);
  }

  lemma {:induction false} JoinHolds(names: seq<string>, name: string)
    requires name in names && name != ""
    ensures Join(names, ',') != ""
  {
    if |names| > 1 {
    } else {
      assert names == [name];
    }
  }
}
