/** bootstrap/clone_with_wale.py: which backup a clone is made from, and under which
    archive prefix it is found. */
module CloneWithWale {
  import opened Wrappers
  import opened SpiloCommons
  import opened WalPrefixes

  // ---- The possible versions ----------------------------------------------------------

  /** The entry the loop over the directories leaves for a version number: the last one. */
  ghost predicate IsEntry(dirs: seq<string>, installed: string -> Option<Version>, max: real, v: Version) {
    && v.number <= max
    && exists i ::
         && 0 <= i < |dirs| && installed(dirs[i]) == Some(v)
         && forall j :: i < j < |dirs| ==>
              installed(dirs[j]).None? || installed(dirs[j]).value.number != v.number
  }

  ghost predicate Descending(versions: seq<Version>) {
    forall i, j :: 0 <= i < j < |versions| ==> versions[i].number > versions[j].number
  }

  /** dict of the versions found, filled in a loop. */
  method FillVersions(dirs: seq<string>, installed: string -> Option<Version>, max: real) returns (found: map<real, string>)
    ensures forall v: Version ::
              (v.number in found && found[v.number] == v.text) <==> IsEntry(dirs, installed, max, v)
  {
    found := map[];
    for n := 0 to |dirs|
      invariant forall v: Version ::
                  (v.number in found && found[v.number] == v.text) <==> IsEntry(dirs[..n], installed, max, v)
    {
      hide IsEntry;
      var ver := installed(dirs[n]);
      if ver.Some? && ver.value.number <= max {
        found := found[ver.value.number := ver.value.text];
      }
      assert dirs[..n + 1] == dirs[..n] + [dirs[n]];
      forall v: Version {
        EntryOfMore(dirs[..n], dirs[n], installed, max, v);
      }
    }
    assert dirs[..|dirs|] == dirs;
  }

  lemma EntryOfMore(dirs: seq<string>, d: string, installed: string -> Option<Version>, max: real, v: Version)
    ensures IsEntry(dirs + [d], installed, max, v)
            <==> if installed(d).Some? && installed(d).value.number == v.number
                 then installed(d) == Some(v) && v.number <= max
                 else IsEntry(dirs, installed, max, v)
  {
    var all := dirs + [d];
    assert all[|dirs|] == d;
    assert forall i :: 0 <= i < |dirs| ==> all[i] == dirs[i];
  }

  /** sorted(found.items(), reverse=True), keys being distinct. */
  method SortDescending(found: map<real, string>) returns (versions: seq<Version>)
    ensures Descending(versions)
    ensures forall v: Version :: v in versions <==> v.number in found && found[v.number] == v.text
  {
    versions := [];
    var left := found.Keys;
    while left != {}
      invariant left <= found.Keys && Descending(versions)
      invariant forall v: Version ::
                  v in versions <==> v.number in found && v.number !in left && found[v.number] == v.text
      invariant forall v, k :: v in versions && k in left ==> v.number > k
      decreases |left|
    {
      var top := Largest(left);
      left := left - {top};
      versions := versions + [Version(found[top], top)];
    }
  }

  method Largest(numbers: set<real>) returns (top: real)
    requires numbers != {}
    ensures top in numbers && forall k :: k in numbers ==> k <= top
  {
    top := AnyOf(numbers);
    var left := numbers - {top};
    while left != {}
      invariant left <= numbers && top in numbers
      invariant forall k :: k in numbers && k !in left ==> k <= top
    {
      var k := AnyOf(left);
      left := left - {k};
      if k > top {
        top := k;
      }
    }
  }

  /** get_possible_versions: exactly the installed versions up to the running one, the
      newest first. */
  method PossibleVersions(dirs: seq<string>, installed: string -> Option<Version>, max: Option<real>)
    returns (versions: Call<seq<Version>>)
    ensures versions.Raised? <==> max.None?
    ensures max.Some? ==> Descending(versions.value)
    ensures max.Some? ==> forall v :: v in versions.value <==> IsEntry(dirs, installed, max.value, v)
  {
    if max.None? {
      return Raised;
    }
    hide IsEntry;
    var found := FillVersions(dirs, installed, max.value);
    var sorted := SortDescending(found);
    versions := Returned(sorted);
  }

  // ---- Choosing a backup ---------------------------------------------------------------

  /** An entry of the backup list; the time is Raised when it cannot be parsed. */
  datatype Backup = Backup(name: string, lastModified: Call<int>)

  predicate Before(list: seq<Backup>, i: nat, target: int)
    requires i < |list|
  {
    list[i].lastModified.Returned? && list[i].lastModified.value < target
  }

  predicate AllParse(list: seq<Backup>) {
    forall i :: 0 <= i < |list| ==> list[i].lastModified.Returned?
  }

  /** list[i] is the latest backup strictly before the target, the first of equals. */
  predicate IsLatestBefore(list: seq<Backup>, target: int, i: nat)
    requires AllParse(list)
  {
    && i < |list| && list[i].lastModified.value < target
    && forall j :: 0 <= j < |list| && list[j].lastModified.value < target ==>
         && list[j].lastModified.value <= list[i].lastModified.value
         && (j < i ==> list[j].lastModified.value < list[i].lastModified.value)
  }

  /** choose_backup as a function of the list, right to left. */
  function Latest(list: seq<Backup>, target: int): (r: Option<nat>)
    requires AllParse(list)
    ensures r.Some? ==> IsLatestBefore(list, target, r.value)
    ensures r.None? ==> forall i :: 0 <= i < |list| ==> list[i].lastModified.value >= target
  {
    if list == [] then None
    else
      var n := |list| - 1;
      var before := Latest(list[..n], target);
      assert forall i :: 0 <= i < n ==> list[..n][i] == list[i];
      assert forall i :: 0 <= i < n ==> Before(list[..n], i, target) == Before(list, i, target);
      if Before(list, n, target)
         && (before.None? || list[n].lastModified.value > list[before.value].lastModified.value)
      then Some(n) else before
  }

  lemma LatestUnique(list: seq<Backup>, target: int, i: nat)
    requires AllParse(list) && IsLatestBefore(list, target, i)
    ensures Latest(list, target) == Some(i)
  {
    var r := Latest(list, target);
    assert Before(list, i, target);
    assert Before(list, r.value, target);
  }

  method ChooseBackup(list: seq<Backup>, target: int) returns (name: Call<Option<string>>)
    ensures name.Raised? <==> !AllParse(list)
    ensures AllParse(list) ==>
              name.value == match Latest(list, target) case None => None case Some(i) => Some(list[i].name)
  {
    var at: Option<nat> := None;
    var timestamp := 0;
    for n := 0 to |list|
      invariant AllParse(list[..n])
      invariant at == Latest(list[..n], target)
      invariant at.Some? ==> timestamp == list[at.value].lastModified.value
    {
      if list[n].lastModified.Raised? {
        return Raised;
      }
      assert list[..n + 1][..n] == list[..n];
      var lastModified := list[n].lastModified.value;
      if lastModified < target {
        if at.None? || lastModified > timestamp {
          at := Some(n);
          timestamp := lastModified;
        }
      }
    }
    assert list[..|list|] == list;
    name := Returned(if at.Some? then Some(list[at.value].name) else None);
  }

  // ---- The search over prefixes -----------------------------------------------------------

  type Env = map<string, string>

  /** What `backup-list` answers in an environment: Raised when it fails. */
  type Listing = Env -> Call<seq<Backup>>

  /** The backup to take from one listing, if any; an empty name is no backup. */
  function Pick(list: seq<Backup>, target: Option<int>): Call<Option<string>> {
    if list == [] then Returned(None)
    else if target.None? then Returned(Some("LATEST"))
    else if !AllParse(list) then Raised
    else
      match Latest(list, target.value)
      case None => Returned(None)
      case Some(i) => Returned(if list[i].name == "" then None else Some(list[i].name))
  }

  function PickIn(env: Env, listing: Listing, target: Option<int>): Call<Option<string>> {
    match listing(env)
    case Raised => Raised
    case Returned(list) => Pick(list, target)
  }

  predicate IsPrefixName(name: string, useWalg: bool) {
    |name| > 12 && EndsWith(name, "_PREFIX") && (if useWalg then "WALG_" else "WALE_") <= name
  }

  const USE_WALG := "USE_WALG_RESTORE"

  predicate UsesWalg(env: Env) {
    USE_WALG in env && env[USE_WALG] == "true"
  }

  /** The variables of the tool in use: WALG_..._PREFIX or WALE_..._PREFIX. */
  predicate Searchable(env: Env, name: string) {
    && name in env && |name| > 12 && name[|name| - 7..] == "_PREFIX"
    && name[..5] == if "USE_WALG_RESTORE" in env && env["USE_WALG_RESTORE"] == "true" then "WALG_" else "WALE_"
  }

  lemma PrefixNamesSearchable(env: Env)
    ensures forall name :: name in PrefixNames(env) <==> Searchable(env, name)
  {
  }

  function PrefixNames(env: Env): set<string> {
    set name | name in env && IsPrefixName(name, UsesWalg(env))
  }

  datatype Search =
    | Found(backup: string, update: Option<string>)
    | NoBackups
    | Failed

  datatype Outcome = Outcome(result: Search, env: Env)

  /** How many candidates are tried in vain before one decides the search. */
  function Misses(env: Env, name: string, candidates: seq<string>, listing: Listing, target: Option<int>): (n: nat)
    ensures n <= |candidates|
    ensures forall j :: 0 <= j < n ==> PickIn(env[name := candidates[j]], listing, target) == Returned(None)
    ensures n < |candidates| ==> PickIn(env[name := candidates[n]], listing, target) != Returned(None)
  {
    if candidates == [] || PickIn(env[name := candidates[0]], listing, target) != Returned(None) then 0
    else 1 + Misses(env, name, candidates[1..], listing, target)
  }

  /** What the search leaves: the deciding candidate in the environment, or the last. */
  function Searched(env: Env, name: string, candidates: seq<string>, listing: Listing, target: Option<int>): Outcome
    requires name in env && candidates != []
  {
    var n := Misses(env, name, candidates, listing, target);
    if n == |candidates| then Outcome(NoBackups, env[name := candidates[n - 1]])
    else
      var there := env[name := candidates[n]];
      match PickIn(there, listing, target)
      case Raised => Outcome(Failed, there)
      case Returned(backup) =>
        Outcome(Found(backup.value, if candidates[n] == env[name] then None else Some(name)), there)
  }

  function Texts(versions: seq<Version>): seq<string> {
    seq(|versions|, i requires 0 <= i < |versions| => versions[i].text)
  }

  class Clone {
    var env: Env
    var envdir: map<string, string>

    /** The loop of find_backup over the values get_wale_environments yields. */
    method SearchPrefixes(name: string, candidates: seq<string>, listing: Listing, target: Option<int>) returns (r: Search)
      requires name in env && candidates != []
      requires env[name] == "" ==> |candidates| == 1
      modifies `env
      ensures Outcome(r, env) == Searched(old(env), name, candidates, listing, target)
    {
      hide PickIn, EndsWith, IsPrefixName;
      var oldValue: Option<string> := None;
      for i := 0 to |candidates|
        invariant env == if i == 0 then old(env) else old(env)[name := candidates[i - 1]]
        invariant Misses(old(env), name, candidates, listing, target)
                  == i + Misses(old(env), name, candidates[i..], listing, target)
        invariant oldValue == if i == 0 then None else Some(old(env)[name])
      {
        assert i == 0 ==> env == old(env);
        assert i > 0 ==> oldValue.value != "";
        if oldValue.None? || oldValue.value == "" {
          oldValue := Some(env[name]);
        }
        assert oldValue == Some(old(env)[name]);
        assert env[name := candidates[i]] == old(env)[name := candidates[i]];
        assert candidates[i..][0] == candidates[i] && candidates[i..][1..] == candidates[i + 1..];
        var backup := TryPrefix(name, candidates[i], listing, target);
        if backup.Raised? {
          return Failed;
        }
        if backup.value.Some? {
          return Found(backup.value.value, if candidates[i] != oldValue.value then Some(name) else None);
        }
      }
      return NoBackups;
    }

    /** One round: set the prefix, list the backups under it, pick one. */
    method TryPrefix(name: string, value: string, listing: Listing, target: Option<int>) returns (r: Call<Option<string>>)
      modifies `env
      ensures env == old(env)[name := value]
      ensures r == PickIn(env, listing, target)
    {
      env := env[name := value];
      var list :- listing(env);
      if list == [] {
        return Returned(None);
      }
      if target.None? {
        return Returned(Some("LATEST"));
      }
      var backup :- ChooseBackup(list, target.value);
      r := Returned(if backup == Some("") then None else backup);
    }

    /** find_backup: `max` is None when the running version cannot be read. */
    method FindBackup(target: Option<int>, dirs: seq<string>, installed: string -> Option<Version>, max: Option<real>,
                      listing: Listing)
      returns (r: Search, ghost name: string, ghost versions: seq<Version>)
      modifies `env
      ensures forall n :: n in PrefixNames(old(env)) <==> Searchable(old(env), n)
      ensures |PrefixNames(old(env))| != 1 ==> r == Failed && env == old(env)
      ensures |PrefixNames(old(env))| == 1 ==>
                PrefixNames(old(env)) == {name} && name in old(env) &&
                if IsSpiloPath(old(env)[name]) && max.None? then r == Failed && env == old(env)
                else Outcome(r, env)
                     == Searched(old(env), name, Candidates(old(env)[name], Texts(versions)), listing, target)
      ensures max.Some? ==> Descending(versions)
      ensures max.Some? ==> forall v :: v in versions <==> IsEntry(dirs, installed, max.value, v)
    {
      hide Searched, EndsWith, IsEntry, IsSpiloPath;
      PrefixNamesSearchable(env);
      hide IsPrefixName, Searchable;
      var names := PrefixNames(env);
      var possible := PossibleVersions(dirs, installed, max);
      versions := if possible.Returned? then possible.value else [];
      if |names| != 1 {
        return Failed, "", versions;
      }
      var only := OnlyName(names);
      name := only;
      CandidatesShape(env[only], Texts(versions));
      if IsSpiloPath(env[only]) && possible.Raised? {
        return Failed, name, versions;
      }
      var tried := if possible.Returned? then Texts(possible.value) else [];
      r := SearchPrefixes(only, Candidates(env[only], tried), listing, target);
    }

    /** run_clone_from_s3; `fetch` is the exit status of backup-fetch in an environment, and
        `hasEnvdir` is false when the clone's envdir cannot be told. */
    method Run(dryRun: bool, target: Option<int>, dirs: seq<string>, installed: string -> Option<Version>,
               max: Option<real>, listing: Listing, fetch: (Env, string) -> int, hasEnvdir: bool)
      returns (r: Call<int>, found: Search, ghost name: string, ghost versions: seq<Version>)
      modifies `env, `envdir
      // what is found is what find_backup finds
      ensures |PrefixNames(old(env))| != 1 ==> found == Failed && env == old(env)
      ensures |PrefixNames(old(env))| == 1 ==>
                PrefixNames(old(env)) == {name} && name in old(env) &&
                if IsSpiloPath(old(env)[name]) && max.None? then found == Failed && env == old(env)
                else Outcome(found, env)
                     == Searched(old(env), name, Candidates(old(env)[name], Texts(versions)), listing, target)
      ensures max.Some? ==> Descending(versions)
      ensures max.Some? ==> forall v :: v in versions <==> IsEntry(dirs, installed, max.value, v)
      // and fetched
      ensures r == if found.Found?
                      && (dryRun || (fetch(env, found.backup) == 0 && (found.update.Some? ==> hasEnvdir)))
                   then Returned(0) else Raised
      ensures r.Raised? || dryRun ==> envdir == old(envdir)
      ensures r.Returned? && !dryRun ==>
                name in old(envdir) && old(envdir)[name] == old(env)[name] ==>
                  name in env && envdir == old(envdir)[name := env[name]]
    {
      hide Searched, PrefixNames, IsSpiloPath, Candidates, IsEntry, Descending;
      found, name, versions := FindBackup(target, dirs, installed, max, listing);
      r := Raised;
      if !found.Found? {
        return;
      }
      assert name in PrefixNames(old(env));
      UpdateSaysChanged(old(env), name, Candidates(old(env)[name], Texts(versions)), listing, target);
      if !dryRun {
        if fetch(env, found.backup) != 0 {
          return;
        }
        if found.update.Some? {
          if !hasEnvdir {
            return;
          }
          envdir := envdir[found.update.value := env[found.update.value]];
        }
      }
      r := Returned(0);
    }
  }

  method OnlyName(names: set<string>) returns (name: string)
    requires |names| == 1
    ensures names == {name}
  {
    name :| name in names;
    assert |names - {name}| == 0;
  }

  /** '/spilo/' in value and value.endswith('/wal'), slashes at the end aside. */
  predicate IsSpiloPath(value: string) {
    Contains(RStrip(value), "/spilo/") && EndsWith(RStrip(value), "/wal")
  }

  lemma CandidatesShape(value: string, versions: seq<string>)
    ensures !IsSpiloPath(value) ==> Candidates(value, versions) == [value]
    ensures value == "" ==> !IsSpiloPath(value)
  {
  }

  // ---- What a search means -----------------------------------------------------------------

  /** The environment differs from the one before in the prefix at most, and the second
      result is None exactly when it does not differ at all. */
  lemma UpdateSaysChanged(env: Env, name: string, candidates: seq<string>, listing: Listing, target: Option<int>)
    requires name in env && candidates != []
    ensures
      var after := Searched(env, name, candidates, listing, target);
      && after.env.Keys == env.Keys
      && (forall k :: k in env && k != name ==> after.env[k] == env[k])
      && (after.result.Found? ==>
            && (after.result.update.None? <==> after.env == env)
            && (after.result.update.Some? ==> after.result.update.value == name))
  {
    hide Misses, PickIn;
    var after := Searched(env, name, candidates, listing, target);
    assert after.env[name] != env[name] ==> after.env != env;
  }

  /** Without backups anywhere the environment ends as it was. */
  lemma NoBackupsRestores(env: Env, name: string, versions: seq<string>, listing: Listing, target: Option<int>)
    requires name in env
    ensures
      var after := Searched(env, name, Candidates(env[name], versions), listing, target);
      && (after.result.NoBackups? ==> after.env == env)
      && (after.result.NoBackups? <==>
            forall value :: value in Candidates(env[name], versions) ==>
              PickIn(env[name := value], listing, target) == Returned(None))
  {
    hide PickIn, EndsWith;
    var candidates := Candidates(env[name], versions);
    var n := Misses(env, name, candidates, listing, target);
    assert n < |candidates| ==> candidates[n] in candidates;
    assert env[name := env[name]] == env;
  }

  /** The backup found with a target time is the latest strictly before it, in the listing
      under the first prefix that has one; without a target, LATEST of the first prefix
      that has any backup. */
  lemma FoundInFirstSuitable(env: Env, name: string, candidates: seq<string>, listing: Listing, target: Option<int>)
    requires name in env && candidates != []
    requires Searched(env, name, candidates, listing, target).result.Found?
    ensures
      var after := Searched(env, name, candidates, listing, target);
      exists n ::
        && 0 <= n < |candidates| && after.env == env[name := candidates[n]]
        && (forall j :: 0 <= j < n ==> HasNone(listing(env[name := candidates[j]]), target))
        && Suits(listing(after.env), target, after.result.backup)
  {
    hide Latest;
    var n := Misses(env, name, candidates, listing, target);
    assert PickIn(env[name := candidates[n]], listing, target)
           == Returned(Some(Searched(env, name, candidates, listing, target).result.backup));
    PickSuits(listing(env[name := candidates[n]]), target);
    forall j | 0 <= j < n
      ensures HasNone(listing(env[name := candidates[j]]), target)
    {
      assert PickIn(env[name := candidates[j]], listing, target) == Returned(None);
      PickSuits(listing(env[name := candidates[j]]), target);
    }
  }

  /** The search fails exactly when a listing does, or has a time that cannot be read where one
      is needed, and every prefix before has no backup to take. */
  lemma FailsIff(env: Env, name: string, candidates: seq<string>, listing: Listing, target: Option<int>)
    requires name in env && candidates != []
    ensures Searched(env, name, candidates, listing, target).result.Failed?
            <==> exists n :: 0 <= n < |candidates| && FailsAt(env, name, candidates, listing, target, n)
  {
    hide Latest;
    var k := Misses(env, name, candidates, listing, target);
    forall j | 0 <= j < |candidates|
      ensures PickIn(env[name := candidates[j]], listing, target).Raised? <==> CannotRead(listing(env[name := candidates[j]]), target)
      ensures PickIn(env[name := candidates[j]], listing, target) == Returned(None)
              <==> HasNone(listing(env[name := candidates[j]]), target)
    {
      var answer := listing(env[name := candidates[j]]);
      if answer.Returned? {
        PickSuits(answer, target);
      }
    }
    if Searched(env, name, candidates, listing, target).result.Failed? {
      assert FailsAt(env, name, candidates, listing, target, k);
    }
    if n: nat :| n < |candidates| && FailsAt(env, name, candidates, listing, target, n) {
      assert n == k;
    }
  }

  predicate CannotRead(answer: Call<seq<Backup>>, target: Option<int>) {
    answer.Raised? || (answer.value != [] && target.Some? && !AllParse(answer.value))
  }

  ghost predicate FailsAt(env: Env, name: string, candidates: seq<string>, listing: Listing, target: Option<int>, n: nat)
    requires n < |candidates|
  {
    && CannotRead(listing(env[name := candidates[n]]), target)
    && forall j :: 0 <= j < n ==> HasNone(listing(env[name := candidates[j]]), target)
  }

  /** No backup to take: none listed, or none before the target, or the latest has no name. */
  ghost predicate HasNone(answer: Call<seq<Backup>>, target: Option<int>) {
    && answer.Returned?
    && (answer.value == []
        || (target.Some? && AllParse(answer.value)
            && forall i: nat :: IsLatestBefore(answer.value, target.value, i) ==> answer.value[i].name == ""))
  }

  ghost predicate Suits(answer: Call<seq<Backup>>, target: Option<int>, name: string) {
    && answer.Returned? && answer.value != []
    && match target
       case None => name == "LATEST"
       case Some(t) =>
         && AllParse(answer.value)
         && exists i: nat :: IsLatestBefore(answer.value, t, i) && answer.value[i].name == name && name != ""
  }

  lemma PickSuits(answer: Call<seq<Backup>>, target: Option<int>)
    requires answer.Returned?
    ensures Pick(answer.value, target) == Returned(None) <==> HasNone(answer, target)
    ensures forall name :: Pick(answer.value, target) == Returned(Some(name)) <==> Suits(answer, target, name)
  {
    var list := answer.value;
    if list != [] && target.Some? && AllParse(list) {
      forall i: nat | IsLatestBefore(list, target.value, i)
        ensures Latest(list, target.value) == Some(i)
      {
        LatestUnique(list, target.value, i);
      }
    }
  }
}
