/** bootstrap/maybe_pg_upgrade.py: point-in-time recovery of a clone with the
    binaries of its version, then the upgrade to ours. */
module MaybePgUpgrade {
  import opened Wrappers
  import opened FileSystems
  import opened Protocol
  import opened Environment
  import opened SpiloCommons
  import opened ServerParameters
  import opened PgUpgrade

  const TARGETS := [TargetName, TargetTime, TargetXid, TargetLsn]

  /** The section of the bootstrap method in the configuration. */
  class MethodConfig {
    var command: string
    var recoveryConf: map<RecoveryKey, string>

    twostate predicate Untargeted()
      reads this
    {
      && (forall k: RecoveryKey :: !k.OtherKey? ==> k in recoveryConf && recoveryConf[k] == "")
      && (forall k: RecoveryKey :: k.OtherKey? ==>
            (k in recoveryConf <==> k in old(recoveryConf))
            && (k in recoveryConf ==> recoveryConf[k] == old(recoveryConf)[k]))
    }

    /** The configuration as it is. */
    function Current(): Method
      reads this
    {
      Method(command, recoveryConf)
    }

    /** All recovery targets become empty, unless there is no recovery_conf. */
    method ResetTargets()
      modifies `recoveryConf
      ensures old(recoveryConf) == map[] ==> recoveryConf == map[]
      ensures old(recoveryConf) != map[] ==> Untargeted()
    {
      if recoveryConf != map[] {
        for i := 0 to |TARGETS|
          invariant forall j :: 0 <= j < i ==> TARGETS[j] in recoveryConf && recoveryConf[TARGETS[j]] == ""
          invariant forall k :: k !in TARGETS ==>
                      (k in recoveryConf <==> k in old(recoveryConf))
                      && (k in recoveryConf ==> recoveryConf[k] == old(recoveryConf)[k])
        {
          recoveryConf := recoveryConf[TARGETS[i] := ""];
        }
        assert TARGETS[0] == TargetName && TARGETS[1] == TargetTime && TARGETS[2] == TargetXid && TARGETS[3] == TargetLsn;
      }
    }
  }

  /** The body of the try block: start the recovery and wait for its end. */
  method TryRecovery(pg: PostgresqlUpgrade, clusterVersion: Version, binVersion: Version, config: Method) returns (r: Call<()>)
    requires pg.world.Valid()
    modifies pg`binDir, pg`oldBinDir, pg`parameters, pg`oldConfigValues
    modifies pg.world`trace, pg.world`mon, pg.world`legal, pg.world`faulty
    ensures pg.world.Valid() && Further(old(pg.world.mon), pg.world.mon) && pg.world.legal == old(pg.world.legal)
    ensures old(pg.world.faulty) ==> pg.world.faulty
    ensures if binVersion == clusterVersion then unchanged(pg) else Started(pg, clusterVersion)
    ensures binVersion != clusterVersion && LibrariesRaise(old(pg.parameters), pg.table, clusterVersion) ==>
              r.Raised? && pg.world.trace == old(pg.world.trace)
    ensures binVersion == clusterVersion || !LibrariesRaise(old(pg.parameters), pg.table, clusterVersion) ==>
              && Recovered(old(pg.world.trace), pg.world.trace, pg.parameters, config, r.Returned?)
              && (r.Raised? ==> pg.world.faulty)
    ensures r.Returned? ==> pg.world.mon.Did(AwaitRecovery)
  {
    hide World.Valid, StartedParameters, RunsOld, LibrariesRaise;
    var ok: bool;
    if binVersion == clusterVersion {
      ok :- pg.world.RunBootstrap(pg.parameters, config);
    } else {
      ok :- pg.StartOldCluster(config, clusterVersion);
    }
    if !ok {
      return Raised;
    }
    r := pg.world.Do(AwaitRecovery);
  }

  /** A recovery with these parameters was tried, and waited for if it started. */
  predicate Recovered(before: seq<Event>, after: seq<Event>, p: Parameters, c: Method, ok: bool) {
    if ok then after == before + [Bootstrap(p, c, true), Ran(AwaitRecovery, true)]
    else after == before + [Bootstrap(p, c, false)] || after == before + [Bootstrap(p, c, true), Ran(AwaitRecovery, false)]
  }

  /** start_old_cluster has been called once on pg. */
  twostate predicate Started(pg: PostgresqlUpgrade, version: Version)
    reads pg
  {
    && pg.oldBinDir == Some(old(pg.binDir)) && pg.binDir == GetBinDir(version.text)
    && pg.oldConfigValues == Some(SavedParameters(old(pg.parameters)))
    && pg.parameters == StartedParameters(old(pg.parameters), pg.table, version)
    && RunsOld(old(pg.parameters), pg.parameters, pg.table, version)
  }

  /** A recovery is only retried from version 13 on, when it ended before its target. */
  predicate MayRetry(version: Version, endedEarly: bool) {
    version.number >= 13.0 && endedEarly
  }

  /** perform_pitr: a recovery that ended before its target is retried once without a target.
      The retry does not touch the object again. `endedEarly` is what the server log says. */
  method PerformPitr(pg: PostgresqlUpgrade, clusterVersion: Version, binVersion: Version, config: MethodConfig, endedEarly: bool)
    returns (r: Call<()>)
    requires pg.world.Valid()
    modifies pg`binDir, pg`oldBinDir, pg`parameters, pg`oldConfigValues
    modifies pg.world`trace, pg.world`mon, pg.world`legal, pg.world`faulty, config
    ensures pg.world.Valid() && Further(old(pg.world.mon), pg.world.mon) && pg.world.legal == old(pg.world.legal)
    ensures config.command == "true"
    ensures old(pg.world.faulty) ==> pg.world.faulty
    ensures r.Raised? ==>
              || pg.world.faulty
              || (binVersion != clusterVersion && LibrariesRaise(old(pg.parameters), pg.table, clusterVersion))
    ensures if binVersion == clusterVersion then unchanged(pg) else Started(pg, clusterVersion)
    // with the targets reset there were two attempts, or one after the libraries raised
    ensures config.recoveryConf == old(config.recoveryConf) || (MayRetry(clusterVersion, endedEarly) && config.Untargeted())
    ensures r.Raised? && MayRetry(clusterVersion, endedEarly) && old(config.recoveryConf) != map[] ==> config.Untargeted()
    // every recovery ran with the parameters of the object, and the last one worked with the
    // targets as they are now
    ensures OnlyRecoveries(old(pg.world.trace), pg.world.trace, pg.parameters,
                           {Method("true", old(config.recoveryConf)), config.Current()},
                           if MayRetry(clusterVersion, endedEarly) then 4 else 2)
    ensures r.Returned? ==> pg.world.mon.Did(AwaitRecovery) && LastRecovered(pg.world.trace, pg.parameters, config.Current())
    ensures r.Raised? && !MayRetry(clusterVersion, endedEarly) ==>
              || (binVersion != clusterVersion && pg.world.trace == old(pg.world.trace)
                  && LibrariesRaise(old(pg.parameters), pg.table, clusterVersion))
              || Recovered(old(pg.world.trace), pg.world.trace, pg.parameters, config.Current(), false)
  {
    hide World.Valid, StartedParameters, RunsOld, LibrariesRaise, Recovered, OnlyRecoveries, LastRecovered;
    ghost var before := pg.world.trace;
    config.command := "true";
    ghost var c := config.Current();
    var first := TryRecovery(pg, clusterVersion, binVersion, config.Current());
    ghost var between := pg.world.trace;
    OneRecovery(before, between, pg.parameters, c, first.Returned?);
    assert {c, c} == {c};
    if first.Returned? {
      return first;
    }
    if clusterVersion.number < 13.0 || !endedEarly {
      return Raised;
    }
    config.ResetTargets();
    r := Retry(pg, config.Current());
    OneRecovery(between, pg.world.trace, pg.parameters, config.Current(), r.Returned?);
    TwoRecoveries(before, between, pg.world.trace, pg.parameters, c, config.Current());
  }

  /** Once more, with the parameters as they are. */
  method Retry(pg: PostgresqlUpgrade, config: Method) returns (r: Call<()>)
    requires pg.world.Valid()
    modifies pg.world`trace, pg.world`mon, pg.world`legal, pg.world`faulty
    ensures pg.world.Valid() && Further(old(pg.world.mon), pg.world.mon) && pg.world.legal == old(pg.world.legal)
    ensures (old(pg.world.faulty) ==> pg.world.faulty) && (r.Raised? ==> pg.world.faulty)
    ensures Recovered(old(pg.world.trace), pg.world.trace, pg.parameters, config, r.Returned?)
    ensures r.Returned? ==> pg.world.mon.Did(AwaitRecovery)
  {
    hide World.Valid;
    var ok :- pg.world.RunBootstrap(pg.parameters, config);
    if !ok {
      return Raised;
    }
    r := pg.world.Do(AwaitRecovery);
  }

  lemma OneRecovery(before: seq<Event>, after: seq<Event>, p: Parameters, c: Method, ok: bool)
    requires after == before || Recovered(before, after, p, c, ok)
    ensures OnlyRecoveries(before, after, p, {c}, 2) && OnlyRecoveries(before, after, p, {c}, 4)
    ensures ok && Recovered(before, after, p, c, ok) ==> LastRecovered(after, p, c)
  {
  }

  lemma TwoRecoveries(before: seq<Event>, between: seq<Event>, after: seq<Event>, p: Parameters, c: Method, d: Method)
    requires OnlyRecoveries(before, between, p, {c}, 2) && OnlyRecoveries(between, after, p, {d}, 2)
    ensures OnlyRecoveries(before, after, p, {c, d}, 4)
  {
    forall i | |before| <= i < |after|
      ensures IsRecovery(after[i], p, {c, d})
    {
      if i < |between| {
        assert after[i] == between[i];
      }
    }
  }

  predicate IsRecovery(e: Event, p: Parameters, configs: set<Method>) {
    (e.Bootstrap? && e.parameters == p && e.config in configs) || (e.Ran? && e.step == AwaitRecovery)
  }

  predicate OnlyRecoveries(before: seq<Event>, after: seq<Event>, p: Parameters, configs: set<Method>, most: nat) {
    && before <= after && |after| <= |before| + most
    && forall i :: |before| <= i < |after| ==> IsRecovery(after[i], p, configs)
  }

  predicate LastRecovered(t: seq<Event>, p: Parameters, c: Method) {
    |t| >= 2 && t[|t| - 2..] == [Bootstrap(p, c, true), Ran(AwaitRecovery, true)]
  }

  /** What main has done when it returns after an upgrade. */
  predicate AllDone(m: Monitor) {
    m.Did(AwaitRecovery) && m.Did(PostBootstrap) && m.Did(DropObjects) && m.Did(StartPostgres)
    && m.Tried(UpdateExtensions) && m.Did(Analyze)
  }

  /** main: recover, then upgrade when the versions differ. It raises for a cluster newer than
      the binaries, for one without shared_preload_libraries, and when those cannot be adjusted;
      otherwise only when some call fails. */
  method RecoverAndUpgrade(pg: PostgresqlUpgrade, clusterVersion: Version, binVersion: Version, config: MethodConfig, endedEarly: bool)
    returns (r: Call<()>)
    requires pg.world.Valid() && pg.world.legal && pg.world.mon.id.role == Recovery && !pg.world.mon.server.stopped
    requires pg.world.mon.id.clusterBin == GetBinDir(clusterVersion.text)
    requires pg.world.mon.id.desiredBin == GetBinDir(binVersion.text)
    requires pg.fs.Valid() && pg.fs.kept && pg.AtHome() && pg.dataDir in pg.fs.dirs && pg.fs.dirs[pg.dataDir] == Old
    requires pg.oldConfigValues.None? && pg.oldPreload.None?
    modifies pg, pg.fs, config, pg.world`trace, pg.world`mon, pg.world`legal, pg.world`faulty
    ensures pg.world.Valid() && pg.world.legal
    ensures pg.fs.Valid() && pg.fs.kept && old(pg.fs.log) <= pg.fs.log
    ensures r.Returned? ==> pg.world.mon.Did(AwaitRecovery)
    ensures r.Returned? && binVersion == clusterVersion ==>
              pg.fs.dirs == old(pg.fs.dirs) && pg.parameters == old(pg.parameters)
    ensures r.Returned? && binVersion != clusterVersion ==>
              && AllDone(pg.world.mon)
              && pg.fs.dirs == (old(pg.fs.dirs) - {OldDir(pg.dataDir), NewDir(pg.dataDir)})[pg.dataDir := Upgraded]
              && UpgradedParameters(old(pg.parameters), pg.table, clusterVersion, binVersion) == Returned(pg.parameters)
    ensures r.Raised? ==>
              || pg.world.faulty || pg.fs.faulty
              || binVersion.number < clusterVersion.number
              || (binVersion != clusterVersion
                  && (!Given(Get(old(pg.parameters), SharedPreload))
                      || LibrariesRaise(old(pg.parameters), pg.table, clusterVersion)))
    ensures binVersion.number < clusterVersion.number ==> r.Raised? && pg.world.trace == old(pg.world.trace)
  {
    hide World.Valid, StartedParameters, RunsOld, LibrariesRaise;
    if binVersion.number < clusterVersion.number {
      return Raised;   // assert float(cluster_version) <= float(bin_version)
    }
    var _ :- PerformPitr(pg, clusterVersion, binVersion, config, endedEarly);
    if binVersion == clusterVersion {
      return Returned(());
    }
    r := UpgradeRecovered(pg, old(pg.parameters), clusterVersion, binVersion);
  }

  /** The upgrade half of main, for the parameters p the recovery began with. */
  method UpgradeRecovered(pg: PostgresqlUpgrade, ghost p: Parameters, clusterVersion: Version, binVersion: Version)
    returns (r: Call<()>)
    requires pg.world.Valid() && pg.world.legal && pg.world.mon.id.role == Recovery && !pg.world.mon.server.stopped
    requires pg.world.mon.id.clusterBin == GetBinDir(clusterVersion.text) && pg.world.mon.Did(AwaitRecovery)
    requires pg.world.mon.id.desiredBin == GetBinDir(binVersion.text)
    requires pg.fs.Valid() && pg.fs.kept && pg.AtHome() && pg.dataDir in pg.fs.dirs && pg.fs.dirs[pg.dataDir] == Old
    requires pg.oldPreload.None? && pg.binDir == GetBinDir(clusterVersion.text)
    requires pg.oldConfigValues == Some(SavedParameters(p)) && pg.parameters == StartedParameters(p, pg.table, clusterVersion)
    modifies pg, pg.fs, pg.world`trace, pg.world`mon, pg.world`legal, pg.world`faulty
    ensures pg.world.Valid() && pg.world.legal
    ensures pg.fs.Valid() && pg.fs.kept && old(pg.fs.log) <= pg.fs.log
    ensures (old(pg.fs.faulty) ==> pg.fs.faulty) && (old(pg.world.faulty) ==> pg.world.faulty)
    ensures r.Returned? ==>
              && pg.dataDir == old(pg.dataDir) && AllDone(pg.world.mon)
              && pg.fs.dirs == (old(pg.fs.dirs) - {OldDir(pg.dataDir), NewDir(pg.dataDir)})[pg.dataDir := Upgraded]
              && UpgradedParameters(p, pg.table, clusterVersion, binVersion) == Returned(pg.parameters)
    ensures r.Raised? ==> pg.world.faulty || pg.fs.faulty || !Given(Get(p, SharedPreload))
  {
    hide KeepsData, Allowed, Observe, FileSystem.Valid, World.Valid, Restored, Appended, StartedParameters, GetBinDir;
    PreparedForRecovery(p, pg.table, clusterVersion, binVersion);
    var _ :- PrepareRecovered(pg, binVersion);
    var _ :- StopAndUpgrade(pg);
    r := StartAndAnalyze(pg);
  }

  /** call_post_bootstrap, prepare_new_pgdata and the dropping of objects that
      may be incompatible. */
  method PrepareRecovered(pg: PostgresqlUpgrade, binVersion: Version) returns (r: Call<()>)
    requires pg.world.Valid() && pg.world.legal && pg.world.mon.id.role == Recovery && !pg.world.mon.server.stopped
    requires pg.world.mon.Did(AwaitRecovery)
    requires pg.fs.Valid() && pg.fs.kept && pg.AtHome() && Holds(pg.fs.dirs, pg.dataDir)
    modifies pg, pg.fs, pg.world`trace, pg.world`mon, pg.world`legal, pg.world`faulty
    ensures pg.world.Valid() && pg.world.legal
    ensures pg.fs.Valid() && pg.fs.kept && old(pg.fs.log) <= pg.fs.log
    ensures (old(pg.fs.faulty) ==> pg.fs.faulty) && (old(pg.world.faulty) ==> pg.world.faulty)
    ensures r.Returned? ==>
              && pg.Prepared(binVersion) && Further(old(pg.world.mon), pg.world.mon)
              && pg.world.mon.Did(PostBootstrap) && pg.world.mon.Did(DropObjects)
    ensures r.Raised? ==>
              || pg.world.faulty || pg.fs.faulty
              || PreparedParameters(old(pg.parameters), old(pg.oldConfigValues), pg.table, binVersion).Raised?
  {
    hide KeepsData, Observe, Allowed, FileSystem.Valid, World.Valid, PreparedParameters, PreparedPreload, InitDbParameters, GetBinDir;
    var initialized :- pg.world.Ask(PostBootstrap);
    if !initialized {
      Abandon(pg);
      return Raised;
    }
    var prepared :- pg.PrepareNewPgdata(binVersion);
    if !prepared {
      return Raised;
    }
    var dropped := pg.world.Do(DropObjects);
    if dropped.Raised? {
      Abandon(pg);
      return Raised;
    }
    r := Returned(());
  }

  /** The recovered server is stopped when the upgrade is given up. */
  method Abandon(pg: PostgresqlUpgrade)
    requires pg.world.Valid() && pg.world.mon.id.role == Recovery
    modifies pg.world`trace, pg.world`mon, pg.world`legal, pg.world`faulty
    ensures pg.world.Valid() && pg.world.legal == old(pg.world.legal) && (old(pg.world.faulty) ==> pg.world.faulty)
    ensures |pg.world.trace| == |old(pg.world.trace)| + 1 && old(pg.world.trace) <= pg.world.trace
    ensures pg.world.trace[|pg.world.trace| - 1].Stop? || pg.world.trace[|pg.world.trace| - 1].CallFailed?
  {
    hide World.Valid;
    var _ := pg.world.StopPostgres();
  }

  /** The end of main: start the new server, update the extensions, which only logs, and
      analyze, which can raise. */
  method StartAndAnalyze(pg: PostgresqlUpgrade) returns (r: Call<()>)
    requires pg.world.Valid() && pg.world.mon.id.role == Recovery
    requires pg.world.mon.server.upgraded && pg.world.mon.server.switched
    modifies pg.world`trace, pg.world`mon, pg.world`legal, pg.world`faulty
    ensures pg.world.Valid() && pg.world.legal == old(pg.world.legal) && Further(old(pg.world.mon), pg.world.mon)
    ensures (old(pg.world.faulty) ==> pg.world.faulty) && (r.Raised? ==> pg.world.faulty)
    ensures r.Returned? ==>
              pg.world.mon.Did(StartPostgres) && pg.world.mon.Tried(UpdateExtensions) && pg.world.mon.Did(Analyze)
  {
    hide World.Valid;
    var started :- pg.world.Ask(StartPostgres);
    if !started {
      return Raised;
    }
    var _ := pg.world.Do(UpdateExtensions);
    r := pg.world.Do(Analyze);
  }

  /** The clean shutdown and do_upgrade. */
  method StopAndUpgrade(pg: PostgresqlUpgrade) returns (r: Call<()>)
    requires pg.world.Valid() && pg.world.legal && pg.world.mon.id.role == Recovery && pg.world.mon.Did(DropObjects)
    requires pg.oldBinDir == Some(pg.world.mon.id.clusterBin) && pg.binDir == pg.world.mon.id.desiredBin
    requires pg.fs.Valid() && pg.fs.kept && pg.AtHome() && pg.newDataDir == Some(NewDir(pg.dataDir))
    requires Upgradable(pg.fs.dirs, pg.dataDir, NewDir(pg.dataDir))
    modifies pg`parameters, pg`oldDataDir, pg.fs, pg.world`trace, pg.world`mon, pg.world`legal, pg.world`faulty
    ensures pg.world.Valid() && pg.world.legal && pg.world.mon.id == old(pg.world.mon.id)
    ensures old(pg.world.mon.ran) <= pg.world.mon.ran
    ensures pg.fs.Valid() && pg.fs.kept && old(pg.fs.log) <= pg.fs.log
    ensures (old(pg.fs.faulty) ==> pg.fs.faulty) && (old(pg.world.faulty) ==> pg.world.faulty)
    ensures r.Raised? ==> pg.world.faulty || pg.fs.faulty || pg.oldPreload.None?
    ensures r.Returned? ==>
              && pg.oldPreload.Some? && pg.world.mon.server.upgraded && pg.world.mon.server.switched
              && pg.fs.dirs == (old(pg.fs.dirs) - {OldDir(pg.dataDir), NewDir(pg.dataDir)})[pg.dataDir := Upgraded]
              && pg.parameters == if Given(pg.oldPreload) then old(pg.parameters)[SharedPreload := pg.oldPreload.value]
                                  else old(pg.parameters)
  {
    hide KeepsData, FileSystem.Valid, World.Valid;
    var stopped :- pg.world.StopPostgres();
    if !stopped {
      return Raised;
    }
    var done :- pg.DoUpgrade();
    if !done {
      return Raised;
    }
    r := Returned(());
  }
}
