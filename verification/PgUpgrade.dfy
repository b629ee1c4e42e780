/** major_upgrade/pg_upgrade.py: one server's directories, binaries and
    parameters during an upgrade. */
module PgUpgrade {
  import opened Wrappers
  import opened FileSystems
  import opened Protocol
  import opened Environment
  import opened SpiloCommons
  import opened ServerParameters

  predicate EndsWithNew(path: string) {
    |path| >= 4 && path[|path| - 4..] == "_new"
  }

  lemma NewDirGuarded(home: string)
    ensures EndsWithNew(NewDir(home))
  {
    assert NewDir(home)[|home|..] == "_new";
  }

  /** Only the result of that kind of run, that it has begun and the steps may differ. */
  predicate SameButExit(m: Monitor, n: Monitor, check: bool) {
    && n == m.(ran := n.ran,
               server := if check then m.server.(checkOk := n.server.checkOk, begun := n.server.begun)
                         else m.server.(upgraded := n.server.upgraded, begun := n.server.begun))
    && m.ran <= n.ran
  }

  lemma UpgradeEventsAllowed(m: Monitor, check: bool)
    ensures forall o, b, ok :: Allowed(Observe(m, PgUpgradeStart(check, o, b)), PgUpgradeExit(check, ok))
  {
  }

  lemma NoExitYet(m: Monitor, n: Monitor, check: bool)
    requires Further(m, n)
    ensures SameButExit(m, n, check)
  {
  }

  /** A scratch directory made before, or removed after, does not matter. */
  lemma ExitBetween(m: Monitor, a: Monitor, b: Monitor, n: Monitor, check: bool, oldBin: string, newBin: string)
    requires Further(m, a) && SameButExit(a, b, check) && Further(b, n)
    ensures SameButExit(m, n, check)
    ensures Allowed(m, PgUpgradeStart(check, oldBin, newBin)) ==> Allowed(a, PgUpgradeStart(check, oldBin, newBin))
  {
  }

  /** switch_pgdata has begun, and nothing but steps has happened besides. */
  predicate SwitchedSince(m: Monitor, n: Monitor) {
    n == m.(ran := n.ran, server := m.server.(switched := true)) && m.ran <= n.ran
  }

  lemma ExitMeans(m: Monitor, n: Monitor)
    requires SameButExit(m, n, false)
    ensures n.id == m.id && m.ran <= n.ran
  {
  }

  lemma SwitchMeans(m: Monitor, n: Monitor)
    ensures SwitchedSince(m, n) ==>
              n.id == m.id && m.ran <= n.ran && n.server.switched && n.server.upgraded == m.server.upgraded
  {
  }

  lemma SwitchSeen(m: Monitor)
    ensures SwitchedSince(m, Observe(m, SwitchDirs)) && !Fault(m, SwitchDirs)
    ensures Observe(m, SwitchDirsBack) == m.(server := m.server.(switched := false)) && !Fault(m, SwitchDirsBack)
  {
  }

  lemma InitDbSeen(m: Monitor, p: Parameters)
    ensures Observe(m, InitDb(p)) == m && Allowed(m, InitDb(p)) && !Fault(m, InitDb(p))
  {
  }

  lemma UpgradeThenSwitch(m: Monitor, n: Monitor, oldBin: string, newBin: string)
    requires Allowed(m, PgUpgradeStart(false, oldBin, newBin)) && SameButExit(m, n, false) && n.server.upgraded
    ensures Allowed(n, SwitchDirs)
  {
  }

  class PostgresqlUpgrade {
    const world: World
    const fs: FileSystem
    const name: string
    const table: Table
    var dataDir: string
    var newDataDir: Option<string>
    var oldDataDir: Option<string>
    var binDir: string
    var oldBinDir: Option<string>
    var versionFile: string
    var confFile: string
    var parameters: Parameters
    var oldConfigValues: Option<Saved>
    var oldPreload: Option<string>

    /** A new object: the optional attributes do not exist yet. */
    constructor (world: World, fs: FileSystem, name: string, table: Table, dataDir: string, binDir: string, parameters: Parameters)
      ensures this.world == world && this.fs == fs && this.name == name && this.table == table
      ensures this.dataDir == dataDir && this.binDir == binDir && this.parameters == parameters
      ensures newDataDir.None? && oldDataDir.None? && oldBinDir.None? && oldConfigValues.None? && oldPreload.None?
    {
      this.world, this.fs, this.name, this.table := world, fs, name, table;
      this.dataDir, this.binDir, this.parameters := dataDir, binDir, parameters;
      newDataDir, oldDataDir, oldBinDir, oldConfigValues, oldPreload := None, None, None, None, None;
      versionFile, confFile := dataDir + "/PG_VERSION", dataDir + "/postgresql.conf";
    }

    /** The object works on the live directory, as it does between the calls. */
    ghost predicate AtHome()
      reads this`dataDir
    {
      dataDir == fs.home
    }

    method SetBinDir(version: Version)
      modifies `binDir, `oldBinDir
      ensures oldBinDir == Some(old(binDir)) && binDir == GetBinDir(version.text)
    {
      oldBinDir := Some(binDir);
      binDir := GetBinDir(version.text);
    }

    // ---- Directories -------------------------------------------------------------

    /** Only a name ending in `_new` is ever removed. */
    method RemoveNewData(d: string) returns (r: Call<()>)
      requires fs.Valid()
      modifies fs
      ensures fs.Valid() && old(fs.log) <= fs.log
      ensures fs.faulty == (old(fs.faulty) || r.Raised?)
      ensures !EndsWithNew(d) ==> r.Returned? && fs.dirs == old(fs.dirs) && fs.kept == old(fs.kept)
      ensures EndsWithNew(d) && r.Returned? ==> fs.dirs == old(fs.dirs) - {d}
      ensures OnlyTouched(fs.log, |old(fs.log)|, old(fs.dirs), d)
      ensures r.Raised? ==>
                fs.dirs == old(fs.dirs) || (d in old(fs.dirs) && fs.dirs == old(fs.dirs)[d := Partial])
      ensures old(fs.kept) && MayChange(fs.home, old(fs.dirs), old(fs.dirs)[d := Partial], old(fs.dirs) - {d}) ==> fs.kept
    {
      if EndsWithNew(d) && d in fs.dirs {
        var _ :- fs.RmTree(d);
      }
      r := Returned(());
    }

    /** After a failed initdb `_new_data_dir` still names the live directory; the
        guard is what keeps this from removing it. */
    method CleanupNewPgdata() returns (r: Call<()>)
      requires fs.Valid()
      modifies fs
      ensures fs.Valid() && old(fs.log) <= fs.log
      ensures fs.faulty == (old(fs.faulty) || r.Raised?)
      ensures newDataDir.None? || !EndsWithNew(newDataDir.value) ==>
                r.Returned? && fs.dirs == old(fs.dirs) && fs.kept == old(fs.kept)
      ensures newDataDir.Some? ==> OnlyTouched(fs.log, |old(fs.log)|, old(fs.dirs), newDataDir.value)
      ensures r.Returned? && newDataDir.Some? && EndsWithNew(newDataDir.value) ==>
                fs.dirs == old(fs.dirs) - {newDataDir.value}
      ensures newDataDir.Some? && old(fs.kept)
              && MayChange(fs.home, old(fs.dirs), old(fs.dirs)[newDataDir.value := Partial], old(fs.dirs) - {newDataDir.value})
              ==> fs.kept
    {
      if newDataDir.Some? {
        var _ :- RemoveNewData(newDataDir.value);
      }
      r := Returned(());
    }

    method CleanupOldPgdata() returns (r: Call<bool>)
      requires fs.Valid()
      modifies fs
      ensures fs.Valid() && old(fs.log) <= fs.log
      ensures r.Returned? ==> r.value && oldDataDir.Some? && fs.dirs == old(fs.dirs) - {oldDataDir.value}
      ensures oldDataDir.Some? ==> fs.faulty == (old(fs.faulty) || r.Raised?)
      ensures oldDataDir.Some? ==> fs.dirs - {oldDataDir.value} == old(fs.dirs) - {oldDataDir.value}
      ensures oldDataDir.Some? ==> OnlyTouched(fs.log, |old(fs.log)|, old(fs.dirs), oldDataDir.value)
      ensures oldDataDir.None? ==> r.Raised? && fs.dirs == old(fs.dirs) && fs.kept == old(fs.kept)
      ensures oldDataDir.Some? && old(fs.kept)
              && MayChange(fs.home, old(fs.dirs), old(fs.dirs)[oldDataDir.value := Partial], old(fs.dirs) - {oldDataDir.value})
              ==> fs.kept
    {
      if oldDataDir.None? {
        return Raised;
      }
      if oldDataDir.value in fs.dirs {
        var _ :- fs.RmTree(oldDataDir.value);
      }
      r := Returned(true);
    }

    /** The first half of switch_pgdata: `data` becomes `_old`. */
    method StashData() returns (r: Call<()>)
      requires fs.Valid()
      modifies `oldDataDir, fs
      ensures fs.Valid() && old(fs.log) <= fs.log
      ensures oldDataDir == Some(OldDir(dataDir))
      ensures old(fs.faulty) ==> fs.faulty
      ensures r.Raised? ==> fs.faulty || dataDir !in old(fs.dirs)
      ensures r.Returned? ==> dataDir in old(fs.dirs) && fs.dirs == Switched(old(fs.dirs), dataDir, None)
      ensures old(fs.kept && AtHome() && Holds(fs.dirs, dataDir)) ==> fs.kept
    {
      hide Observe, Allowed, KeepsData, FileSystem.Valid, World.Valid;
      ghost var ready := AtHome() && Holds(fs.dirs, dataDir);
      oldDataDir := Some(OldDir(dataDir));
      if ready {
        MayRemoveOld(fs.home, fs.dirs);
      }
      var _ :- CleanupOldPgdata();
      if ready {
        MayStash(fs.home, fs.dirs);
      }
      r := fs.Rename(dataDir, oldDataDir.value);
    }

    method SwitchPgdata() returns (r: Call<bool>)
      requires world.Valid() && fs.Valid()
      modifies `oldDataDir, fs, world`trace, world`mon, world`legal, world`faulty
      ensures world.Valid() && SwitchedSince(old(world.mon), world.mon)
      ensures world.legal == (old(world.legal) && Allowed(old(world.mon), SwitchDirs))
      ensures r.Returned? ==> world.trace == old(world.trace) + [SwitchDirs, Ran(Configure, true)]
      ensures fs.Valid() && old(fs.log) <= fs.log
      ensures oldDataDir == Some(OldDir(dataDir))
      ensures (old(fs.faulty) ==> fs.faulty) && (old(world.faulty) ==> world.faulty)
      ensures r.Raised? ==>
                || fs.faulty || world.faulty || dataDir !in old(fs.dirs)
                || (newDataDir.Some? && (newDataDir == Some(NewDir(dataDir)) ==> NewDir(dataDir) !in old(fs.dirs)))
      ensures r.Returned? ==>
                && r.value && dataDir in old(fs.dirs)
                && fs.dirs == Switched(old(fs.dirs), dataDir, newDataDir)
                && (newDataDir == Some(NewDir(dataDir)) ==> NewDir(dataDir) in old(fs.dirs))
      ensures old(fs.kept && AtHome() && Holds(fs.dirs, dataDir)) && (newDataDir.Some? ==> newDataDir.value == NewDir(dataDir))
              ==> fs.kept
    {
      hide Observe, Allowed, KeepsData, FileSystem.Valid, World.Valid;
      SwitchSeen(world.mon);
      world.Note(SwitchDirs);
      var _ :- MoveForward();
      var _ :- world.Do(Configure);
      r := Returned(true);
    }

    /** The renames of switch_pgdata. */
    method MoveForward() returns (r: Call<()>)
      requires fs.Valid()
      modifies `oldDataDir, fs
      ensures fs.Valid() && old(fs.log) <= fs.log
      ensures oldDataDir == Some(OldDir(dataDir))
      ensures old(fs.faulty) ==> fs.faulty
      ensures r.Raised? ==>
                || fs.faulty || dataDir !in old(fs.dirs)
                || (newDataDir.Some? && (newDataDir == Some(NewDir(dataDir)) ==> NewDir(dataDir) !in old(fs.dirs)))
      ensures r.Returned? ==>
                && dataDir in old(fs.dirs) && fs.dirs == Switched(old(fs.dirs), dataDir, newDataDir)
                && (newDataDir == Some(NewDir(dataDir)) ==> NewDir(dataDir) in old(fs.dirs))
      ensures old(fs.kept && AtHome() && Holds(fs.dirs, dataDir)) && (newDataDir.Some? ==> newDataDir.value == NewDir(dataDir))
              ==> fs.kept
    {
      hide KeepsData, FileSystem.Valid;
      ghost var ready := AtHome() && Holds(fs.dirs, dataDir) && newDataDir == Some(NewDir(dataDir));
      var _ :- StashData();
      if newDataDir.Some? {
        if ready && NewDir(dataDir) in fs.dirs {
          MayInstall(fs.home, fs.dirs, NewDir(dataDir));
        }
        var _ :- fs.Rename(newDataDir.value, dataDir);
      }
      r := Returned(());
    }

    /** The first half of switch_back_pgdata: what is in `data` becomes `_new`. */
    method SetAside() returns (r: Call<()>)
      requires fs.Valid() && dataDir in fs.dirs
      modifies `newDataDir, fs
      ensures fs.Valid() && old(fs.log) <= fs.log
      ensures (old(fs.faulty) ==> fs.faulty) && (r.Raised? ==> fs.faulty)
      ensures r.Returned? ==> fs.dirs == Renamed(old(fs.dirs) - {NewDir(dataDir)}, dataDir, NewDir(dataDir))
      ensures old(Holds(fs.dirs, dataDir) || Holds(fs.dirs, OldDir(dataDir))) ==> SafeFrom(dataDir, fs.log, |old(fs.log)|)
      ensures old(fs.kept && AtHome() && Holds(fs.dirs, OldDir(dataDir))) ==> fs.kept
    {
      hide Observe, Allowed, KeepsData, FileSystem.Valid, World.Valid;
      ghost var ready := AtHome() && Holds(fs.dirs, OldDir(dataDir));
      newDataDir := Some(NewDir(dataDir));
      if ready {
        MayChangeNew(fs.home, fs.dirs, Partial);
      }
      NewDirGuarded(dataDir);
      ghost var complete := Holds(fs.dirs, dataDir) || Holds(fs.dirs, OldDir(dataDir));
      if complete {
        AsideIsSafe(fs.dirs, dataDir);
      }
      ghost var before, d := fs.log, fs.dirs;
      var cleaned := CleanupNewPgdata();
      if complete {
        SafeWhileTouched(dataDir, fs.log, |before|, d, NewDir(dataDir));
      }
      if cleaned.Raised? {
        return Raised;
      }
      if ready {
        MaySetAside(fs.home, fs.dirs);
      }
      r := fs.Rename(dataDir, newDataDir.value);
    }

    method SwitchBackPgdata() returns (r: Call<()>)
      requires world.Valid() && fs.Valid()
      modifies `newDataDir, fs, world`trace, world`mon, world`legal, world`faulty
      ensures world.Valid() && world.Added(SwitchDirsBack) && world.faulty == old(world.faulty)
      ensures fs.Valid() && old(fs.log) <= fs.log
      ensures old(fs.faulty) ==> fs.faulty
      ensures r.Raised? && oldDataDir == Some(OldDir(dataDir)) ==> fs.faulty || OldDir(dataDir) !in old(fs.dirs)
      ensures r.Returned? && oldDataDir == Some(OldDir(dataDir)) ==>
                OldDir(dataDir) in old(fs.dirs) && fs.dirs == SwitchedBack(old(fs.dirs), dataDir)
      ensures old(fs.kept && AtHome() && Holds(fs.dirs, OldDir(dataDir))) && oldDataDir == Some(OldDir(dataDir)) ==> fs.kept
      ensures oldDataDir == Some(OldDir(dataDir)) && old(MayGoBack(fs.dirs, dataDir)) ==> SafeFrom(dataDir, fs.log, |old(fs.log)|)
    {
      hide Observe, Allowed, KeepsData, FileSystem.Valid, World.Valid, MayGoBack, SwitchedBack, SafeFrom;
      SwitchSeen(world.mon);
      world.Note(SwitchDirsBack);
      r := MoveBack();
    }

    /** The renames of switch_back_pgdata. */
    method MoveBack() returns (r: Call<()>)
      requires fs.Valid()
      modifies `newDataDir, fs
      ensures fs.Valid() && old(fs.log) <= fs.log
      ensures old(fs.faulty) ==> fs.faulty
      ensures r.Raised? && oldDataDir == Some(OldDir(dataDir)) ==> fs.faulty || OldDir(dataDir) !in old(fs.dirs)
      ensures r.Returned? && oldDataDir == Some(OldDir(dataDir)) ==>
                OldDir(dataDir) in old(fs.dirs) && fs.dirs == SwitchedBack(old(fs.dirs), dataDir)
      ensures old(fs.kept && AtHome() && Holds(fs.dirs, OldDir(dataDir))) && oldDataDir == Some(OldDir(dataDir)) ==> fs.kept
      ensures oldDataDir == Some(OldDir(dataDir)) && old(MayGoBack(fs.dirs, dataDir)) ==> SafeFrom(dataDir, fs.log, |old(fs.log)|)
    {
      hide KeepsData, FileSystem.Valid;
      ghost var ready := AtHome() && Holds(fs.dirs, OldDir(dataDir));
      if MayGoBack(fs.dirs, dataDir) && OldDir(dataDir) in fs.dirs {
        BackIsSafe(fs.dirs, dataDir);
      }
      if dataDir in fs.dirs {
        var _ :- SetAside();
      }
      if oldDataDir.None? {
        return Raised;
      }
      if ready {
        MayInstall(fs.home, fs.dirs, OldDir(dataDir));
      }
      r := fs.Rename(oldDataDir.value, dataDir);
    }

    /** pg_upgrade, or pg_upgrade --check. The scratch directory and the config
        file it writes first may raise. */
    method PgUpgrade(check: bool) returns (r: Call<bool>)
      requires world.Valid() && fs.Valid()
      modifies fs, world`trace, world`mon, world`legal, world`faulty
      ensures world.Valid() && fs.Valid() && old(fs.log) <= fs.log
      ensures check ==> fs.dirs == old(fs.dirs) && fs.kept == old(fs.kept)
      ensures newDataDir.Some? ==> fs.dirs - {dataDir, newDataDir.value} == old(fs.dirs) - {dataDir, newDataDir.value}
      ensures dataDir in old(fs.dirs) && newDataDir != Some(dataDir) ==> Stays(old(fs.dirs), fs.dirs, dataDir)
      ensures (old(fs.faulty) ==> fs.faulty) && (old(world.faulty) ==> world.faulty)
      ensures r != Returned(true) ==>
                || fs.faulty || world.faulty || oldBinDir.None? || newDataDir.None?
                || (!check && !Upgradable(old(fs.dirs), dataDir, newDataDir.value))
      ensures r.Returned? ==>
                && oldBinDir.Some? && newDataDir.Some?
                && r.value == if check then world.mon.server.checkOk else world.mon.server.upgraded
      ensures r == Returned(true) && !check ==>
                && Upgradable(old(fs.dirs), dataDir, newDataDir.value)
                && fs.dirs == Linking(old(fs.dirs), dataDir, newDataDir.value, Upgraded)
      ensures oldBinDir.Some? && old(world.legal) && Allowed(old(world.mon), PgUpgradeStart(check, oldBinDir.value, binDir))
              ==> world.legal
      ensures oldBinDir.None? && old(world.legal) ==> world.legal
      ensures newDataDir == Some(NewDir(dataDir)) && old(fs.kept && AtHome() && Holds(fs.dirs, dataDir)) ==> fs.kept
      ensures SameButExit(old(world.mon), world.mon, check)
      ensures r == Returned(true) ==>
                world.trace == old(world.trace)
                               + [Ran(MakeScratch, true), PgUpgradeStart(check, oldBinDir.value, binDir),
                                  PgUpgradeExit(check, true), Ran(RemoveScratch, true)]
    {
      hide Observe, Allowed, KeepsData, FileSystem.Valid, World.Valid, SameButExit;
      ghost var m := world.mon;
      var made := world.Do(MakeScratch);
      NoExitYet(m, world.mon, check);
      if made.Raised? || oldBinDir.None? || newDataDir.None? {
        return Raised;
      }
      ghost var a := world.mon;
      var ok := RunPgUpgrade(check);
      ghost var b := world.mon;
      ExitBetween(m, a, b, b, check, oldBinDir.value, binDir);
      if ok {
        var removed := world.Do(RemoveScratch);
        ExitBetween(m, a, b, world.mon, check, oldBinDir.value, binDir);
        if removed.Raised? {
          return Raised;
        }
      }
      r := Returned(ok);
    }

    /** The pg_upgrade program; true when it exits with 0. A real run fills the
        new directory from an old cluster. */
    method RunPgUpgrade(check: bool) returns (ok: bool)
      requires world.Valid() && fs.Valid() && oldBinDir.Some? && newDataDir.Some?
      modifies fs, world`trace, world`mon, world`legal, world`faulty
      ensures world.Valid() && fs.Valid() && old(fs.log) <= fs.log
      ensures SameButExit(old(world.mon), world.mon, check)
      ensures world.trace == old(world.trace) + [PgUpgradeStart(check, oldBinDir.value, binDir), PgUpgradeExit(check, ok)]
      ensures ok == if check then world.mon.server.checkOk else world.mon.server.upgraded
      ensures world.legal == (old(world.legal) && Allowed(old(world.mon), PgUpgradeStart(check, oldBinDir.value, binDir)))
      ensures check ==> fs.dirs == old(fs.dirs) && fs.kept == old(fs.kept)
      ensures newDataDir.Some? ==> fs.dirs - {dataDir, newDataDir.value} == old(fs.dirs) - {dataDir, newDataDir.value}
      ensures dataDir in old(fs.dirs) && newDataDir != Some(dataDir) ==> Stays(old(fs.dirs), fs.dirs, dataDir)
      ensures (old(fs.faulty) ==> fs.faulty) && (old(world.faulty) ==> world.faulty)
      ensures !ok ==> fs.faulty || world.faulty || (!check && !Upgradable(old(fs.dirs), dataDir, newDataDir.value))
      ensures ok && !check ==>
                && Upgradable(old(fs.dirs), dataDir, newDataDir.value)
                && fs.dirs == Linking(old(fs.dirs), dataDir, newDataDir.value, Upgraded)
      ensures newDataDir == Some(NewDir(dataDir)) && old(fs.kept && AtHome() && Holds(fs.dirs, dataDir)) ==> fs.kept
    {
      hide Allowed, KeepsData, World.Valid;
      if newDataDir == Some(NewDir(dataDir)) && AtHome() && Upgradable(fs.dirs, dataDir, NewDir(dataDir)) {
        MayUpgradeHome(fs.home, fs.dirs);
      }
      UpgradeEventsAllowed(world.mon, check);
      world.Note(PgUpgradeStart(check, oldBinDir.value, binDir));
      if check {
        ok := *;
      } else {
        ok := fs.UpgradeDir(dataDir, newDataDir.value);
      }
      world.Note(PgUpgradeExit(check, ok));
    }

    // ---- Preparing the new directory ------------------------------------------------

    /** restores the saved parameters one by one; popping a missing one raises. */
    method RestoreConfigValues(saved: Saved) returns (r: Call<()>)
      modifies `parameters
      ensures r.Returned? <==> Restored(old(parameters), saved).Returned?
      ensures r.Returned? ==> Restored(old(parameters), saved) == Returned(parameters)
    {
      for i := 0 to |saved|
        invariant Restored(old(parameters), saved) == Restored(parameters, saved[i..])
      {
        assert saved[i..][1..] == saved[i + 1..];
        var (name, value) := saved[i];
        if value.Some? {
          parameters := parameters[name := value.value];
        } else if name in parameters {
          parameters := parameters - {name};
        } else {
          return Raised;
        }
      }
      r := Returned(());
    }

    /** The parameters for initdb: the saved values go back, and the libraries of
        the new version are added and remembered. */
    method ToInitDbParameters(version: Version) returns (r: Call<()>)
      modifies `parameters, `oldPreload
      ensures r.Returned? <==> InitDbParameters(old(parameters), oldConfigValues, table, version).Returned?
      ensures r.Returned? ==>
                && InitDbParameters(old(parameters), oldConfigValues, table, version) == Returned(parameters)
                && oldPreload == PreparedPreload(old(parameters), oldConfigValues, old(oldPreload), table, version)
    {
      if oldConfigValues.Some? {
        var _ :- RestoreConfigValues(oldConfigValues.value);
      }
      var libs := Get(parameters, SharedPreload);
      if Given(libs) {
        var appended := AppendExtensions(table, libs.value, version.number, false);
        oldPreload := Some(appended);
        parameters := parameters[SharedPreload := appended];
      }
      r := Returned(());
    }

    /** The object turns to the new directory, and an earlier one is removed. */
    method PointAtNew() returns (r: Call<()>)
      requires fs.Valid()
      modifies `dataDir, `newDataDir, `oldDataDir, `confFile, `versionFile, fs
      ensures fs.Valid() && old(fs.log) <= fs.log && fs.faulty == (old(fs.faulty) || r.Raised?)
      ensures dataDir == NewDir(old(dataDir)) && newDataDir == Some(old(dataDir)) && oldDataDir == Some(OldDir(old(dataDir)))
      ensures r.Returned? ==> fs.dirs == old(fs.dirs) - {dataDir}
      ensures old(fs.kept && AtHome() && Holds(fs.dirs, dataDir)) ==> fs.kept && Holds(fs.dirs, old(dataDir))
    {
      hide KeepsData, FileSystem.Valid;
      if AtHome() && Holds(fs.dirs, dataDir) {
        MayChangeNew(fs.home, fs.dirs, Fresh);
      }
      NewDirGuarded(dataDir);
      newDataDir, oldDataDir, dataDir := Some(dataDir), Some(OldDir(dataDir)), NewDir(dataDir);
      confFile, versionFile := dataDir + "/postgresql.conf", dataDir + "/PG_VERSION";
      r := RemoveNewData(dataDir);
    }

    /** Everything before initdb: directories, binaries and parameters. */
    method TurnToNew(version: Version) returns (r: Call<()>)
      requires fs.Valid() && world.Valid()
      modifies this, fs, world`trace, world`mon, world`legal, world`faulty
      ensures fs.Valid() && old(fs.log) <= fs.log
      ensures world.Valid() && Further(old(world.mon), world.mon) && world.legal == old(world.legal)
      ensures r.Returned? ==> world.trace == old(world.trace) + [Ran(ReadLocale, true)]
      ensures (old(fs.faulty) ==> fs.faulty) && (old(world.faulty) ==> world.faulty)
      ensures oldConfigValues == old(oldConfigValues)
      ensures r.Raised? ==>
                || fs.faulty || world.faulty
                || InitDbParameters(old(parameters), oldConfigValues, table, version).Raised?
      ensures r.Returned? ==>
                && dataDir == NewDir(old(dataDir)) && newDataDir == Some(old(dataDir)) && oldDataDir == Some(OldDir(old(dataDir)))
                && fs.dirs == old(fs.dirs) - {dataDir}
                && oldBinDir == Some(old(binDir)) && binDir == GetBinDir(version.text)
                && InitDbParameters(old(parameters), oldConfigValues, table, version) == Returned(parameters)
                && oldPreload == PreparedPreload(old(parameters), oldConfigValues, old(oldPreload), table, version)
      ensures old(fs.kept && AtHome() && Holds(fs.dirs, dataDir)) ==> fs.kept && Holds(fs.dirs, old(dataDir))
    {
      hide KeepsData, FileSystem.Valid, World.Valid, GetBinDir, InitDbParameters, PreparedPreload;
      var _ :- world.Do(ReadLocale);
      var _ :- PointAtNew();
      SetBinDir(version);
      r := ToInitDbParameters(version);
    }

    /** initdb into the directory the object has turned to, and the old configs
        copied there. */
    method MakeNewDir() returns (r: Call<bool>)
      requires fs.Valid() && world.Valid() && newDataDir.Some?
      modifies fs, world`trace, world`mon, world`legal, world`faulty
      ensures fs.Valid() && old(fs.log) <= fs.log
      ensures world.Valid() && Further(old(world.mon), world.mon) && world.legal == old(world.legal)
      ensures r == Returned(true) ==> world.trace == old(world.trace) + [InitDb(parameters), Ran(CopyConfigs, true)]
      ensures (old(fs.faulty) ==> fs.faulty) && (old(world.faulty) ==> world.faulty)
      ensures r != Returned(true) ==> fs.faulty || world.faulty || dataDir in old(fs.dirs)
      ensures r == Returned(true) ==> fs.dirs == old(fs.dirs)[dataDir := Fresh]
      ensures old(fs.kept) && newDataDir.value == fs.home && dataDir == NewDir(fs.home) && Holds(old(fs.dirs), fs.home)
              ==> fs.kept && Holds(fs.dirs, fs.home)
    {
      hide KeepsData, World.Valid, Observe, Allowed, Fault;
      if Holds(fs.dirs, fs.home) {
        MayChangeNew(fs.home, fs.dirs, Fresh);
      }
      InitDbSeen(world.mon, parameters);
      world.Note(InitDb(parameters));
      var made := fs.InitDb(dataDir);
      if made {
        var _ :- world.Do(CopyConfigs);
      }
      r := Returned(made);
    }

    /** The object turns back to the live directory and the running parameters. */
    method TurnBack(running: Option<string>, oldConf: string, oldVersionFile: string) returns (r: Call<bool>)
      requires world.Valid() && newDataDir.Some?
      modifies `dataDir, `newDataDir, `confFile, `versionFile, `parameters
      modifies world`trace, world`mon, world`legal, world`faulty
      ensures world.Valid() && Further(old(world.mon), world.mon) && world.legal == old(world.legal)
      ensures r.Returned? ==> world.trace == old(world.trace) + [Ran(Configure, true)]
      ensures old(world.faulty) ==> world.faulty
      ensures r.Raised? ==> world.faulty
      ensures r.Returned? ==> r.value
      ensures dataDir == old(newDataDir).value && newDataDir == Some(old(dataDir))
      ensures confFile == oldConf && versionFile == oldVersionFile
      ensures parameters == if Given(running) then old(parameters)[SharedPreload := running.value] else old(parameters)
    {
      newDataDir, dataDir := Some(dataDir), newDataDir.value;
      confFile, versionFile := oldConf, oldVersionFile;
      if Given(running) {
        parameters := parameters[SharedPreload := running.value];
      }
      var _ :- world.Do(Configure);
      r := Returned(true);
    }

    /** What a successful prepare_new_pgdata has done. */
    twostate predicate Prepared(version: Version)
      reads this, fs
    {
      && dataDir == old(dataDir)
      && newDataDir == Some(NewDir(dataDir)) && oldDataDir == Some(OldDir(dataDir))
      && versionFile == old(versionFile) && confFile == old(confFile)
      && oldBinDir == Some(old(binDir)) && binDir == GetBinDir(version.text)
      && oldConfigValues == old(oldConfigValues)
      && PreparedParameters(old(parameters), old(oldConfigValues), table, version) == Returned(parameters)
      && oldPreload == PreparedPreload(old(parameters), old(oldConfigValues), old(oldPreload), table, version)
      && fs.dirs == old(fs.dirs)[NewDir(dataDir) := Fresh]
    }

    /** initdb of `_new`. During the call the object points at the new directory,
        and it stays so when initdb fails or anything raises. */
    method PrepareNewPgdata(version: Version) returns (r: Call<bool>)
      requires fs.Valid() && world.Valid()
      modifies this, fs, world`trace, world`mon, world`legal, world`faulty
      ensures fs.Valid() && old(fs.log) <= fs.log
      ensures world.Valid() && Further(old(world.mon), world.mon) && world.legal == old(world.legal)
      ensures (old(fs.faulty) ==> fs.faulty) && (old(world.faulty) ==> world.faulty)
      // the parameters initdb runs with
      ensures r == Returned(true) ==>
                var p := InitDbParameters(old(parameters), old(oldConfigValues), table, version);
                p.Returned? && world.trace == old(world.trace)
                                              + [Ran(ReadLocale, true), InitDb(p.value), Ran(CopyConfigs, true), Ran(Configure, true)]
      // the parameters either all go back, or a parameter to pop is missing
      ensures PreparedParameters(old(parameters), old(oldConfigValues), table, version).Raised? ==> r.Raised?
      ensures r != Returned(true) ==>
                || fs.faulty || world.faulty
                || PreparedParameters(old(parameters), old(oldConfigValues), table, version).Raised?
      ensures r == Returned(true) ==> Prepared(version)
      ensures r == Returned(false) ==>
                && dataDir == NewDir(old(dataDir)) && newDataDir == Some(old(dataDir)) && oldDataDir == Some(OldDir(old(dataDir)))
      ensures old(fs.kept && AtHome() && Holds(fs.dirs, dataDir)) ==> fs.kept && Holds(fs.dirs, old(dataDir))
    {
      hide KeepsData, FileSystem.Valid, World.Valid, InitDbParameters, PreparedPreload, GetBinDir, Complete, Given;
      var running := Get(parameters, SharedPreload);
      var oldConf, oldVersionFile := confFile, versionFile;
      var _ :- TurnToNew(version);
      r := FillNewDir(running, oldConf, oldVersionFile);
    }

    /** initdb, and if it works the way back. */
    method FillNewDir(running: Option<string>, oldConf: string, oldVersionFile: string) returns (r: Call<bool>)
      requires fs.Valid() && world.Valid() && newDataDir.Some?
      modifies `dataDir, `newDataDir, `confFile, `versionFile, `parameters
      modifies fs, world`trace, world`mon, world`legal, world`faulty
      ensures fs.Valid() && old(fs.log) <= fs.log
      ensures world.Valid() && Further(old(world.mon), world.mon) && world.legal == old(world.legal)
      ensures (old(fs.faulty) ==> fs.faulty) && (old(world.faulty) ==> world.faulty)
      ensures r != Returned(true) ==> fs.faulty || world.faulty || old(dataDir) in old(fs.dirs)
      ensures r == Returned(false) ==> dataDir == old(dataDir) && newDataDir == old(newDataDir)
      ensures r == Returned(true) ==>
                && world.trace == old(world.trace) + [InitDb(old(parameters)), Ran(CopyConfigs, true), Ran(Configure, true)]
                && dataDir == old(newDataDir).value && newDataDir == Some(old(dataDir))
                && confFile == oldConf && versionFile == oldVersionFile
                && parameters == (if Given(running) then old(parameters)[SharedPreload := running.value] else old(parameters))
                && fs.dirs == old(fs.dirs)[old(dataDir) := Fresh]
      ensures old(fs.kept && newDataDir.value == fs.home && dataDir == NewDir(fs.home) && Holds(fs.dirs, fs.home))
              ==> fs.kept && Holds(fs.dirs, fs.home)
    {
      hide KeepsData, FileSystem.Valid, World.Valid;
      var made :- MakeNewDir();
      if !made {
        return Returned(false);
      }
      r := TurnBack(running, oldConf, oldVersionFile);
    }

    // ---- Point-in-time recovery with the old binaries ---------------------------------

    method AdjustSharedPreloadLibraries(version: Version) returns (r: Call<()>)
      requires oldConfigValues.Some?
      modifies `parameters, `oldConfigValues
      ensures oldConfigValues == Some(old(oldConfigValues).value + [(SharedPreload, Get(old(parameters), SharedPreload))])
      ensures r.Returned? <==> AdjustedLibs(old(parameters), table, version).Returned?
      ensures parameters == if r.Returned? then AdjustedLibs(old(parameters), table, version).value else old(parameters)
    {
      var libs := Get(parameters, SharedPreload);
      oldConfigValues := Some(oldConfigValues.value + [(SharedPreload, libs)]);
      if Given(libs) {
        var adjusted :- AdjustExtensions(table, libs.value, version.number, false);
        parameters := parameters[SharedPreload := adjusted];
      }
      r := Returned(());
    }

    /** Raises when prepare_new_pgdata found no libraries to remember. */
    method RestoreSharedPreloadLibraries() returns (r: Call<bool>)
      modifies `parameters
      ensures r == if oldPreload.None? then Raised else Returned(true)
      ensures parameters == if Given(oldPreload) then old(parameters)[SharedPreload := oldPreload.value] else old(parameters)
    {
      if oldPreload.None? {
        return Raised;
      }
      if Given(oldPreload) {
        parameters := parameters[SharedPreload := oldPreload.value];
      }
      r := Returned(true);
    }

    /** start_old_cluster: the recovery runs with archive_mode off, so that no WAL of the old
        version is archived, and without the libraries that the old version does not have. */
    method StartOldCluster(config: Method, version: Version) returns (r: Call<bool>)
      requires world.Valid()
      modifies `binDir, `oldBinDir, `parameters, `oldConfigValues, world`trace, world`mon, world`legal, world`faulty
      ensures world.Valid() && world.mon == old(world.mon) && world.legal == old(world.legal)
      ensures old(world.faulty) ==> world.faulty
      ensures oldBinDir == Some(old(binDir)) && binDir == GetBinDir(version.text)
      ensures oldConfigValues == Some(SavedParameters(old(parameters)))
      ensures parameters == StartedParameters(old(parameters), table, version)
      ensures RunsOld(old(parameters), parameters, table, version)
      ensures LibrariesRaise(old(parameters), table, version) ==> r.Raised? && world.trace == old(world.trace)
      ensures !LibrariesRaise(old(parameters), table, version) ==>
                && world.trace == old(world.trace) + [Bootstrap(parameters, config, r == Returned(true))]
                && (r != Returned(true) ==> world.faulty)
    {
      hide World.Valid, StartedParameters, RunsOld, LibrariesRaise;
      StartedRunsOld(parameters, table, version);
      ghost var p := parameters;
      SetBinDir(version);
      oldConfigValues := Some([(ArchiveMode, Get(parameters, ArchiveMode))]);
      assert oldConfigValues.value + [(SharedPreload, Get(parameters, SharedPreload))] == SavedParameters(parameters);
      parameters := parameters[ArchiveMode := "off"];
      StartedByLibs(p, table, version);
      var adjusted := AdjustSharedPreloadLibraries(version);
      if adjusted.Raised? {
        return Raised;
      }
      r := world.RunBootstrap(parameters, config);
    }

    /** do_upgrade: pg_upgrade, the new libraries, the directories. */
    method DoUpgrade() returns (r: Call<bool>)
      requires world.Valid() && fs.Valid()
      requires AtHome() && newDataDir == Some(NewDir(dataDir))
      modifies `parameters, `oldDataDir, fs, world`trace, world`mon, world`legal, world`faulty
      ensures world.Valid() && fs.Valid() && old(fs.log) <= fs.log
      ensures (old(fs.faulty) ==> fs.faulty) && (old(world.faulty) ==> world.faulty)
      ensures r != Returned(true) ==>
                || fs.faulty || world.faulty || oldBinDir.None? || oldPreload.None?
                || !Upgradable(old(fs.dirs), dataDir, NewDir(dataDir))
      ensures oldPreload.None? ==> r != Returned(true)
      ensures r == Returned(true) ==>
                && Upgradable(old(fs.dirs), dataDir, NewDir(dataDir))
                && fs.dirs == (old(fs.dirs) - {OldDir(dataDir), NewDir(dataDir)})[dataDir := Upgraded]
                && parameters == if Given(oldPreload) then old(parameters)[SharedPreload := oldPreload.value] else old(parameters)
      ensures old(fs.kept && Holds(fs.dirs, dataDir)) ==> fs.kept
      ensures old(world.legal) && (oldBinDir.Some? ==> Allowed(old(world.mon), PgUpgradeStart(false, oldBinDir.value, binDir)))
              ==> world.legal
      ensures world.mon.id == old(world.mon.id) && old(world.mon.ran) <= world.mon.ran
      ensures r == Returned(true) ==> world.mon.server.upgraded && world.mon.server.switched
    {
      hide KeepsData, FileSystem.Valid, World.Valid, Observe, Allowed, Stays, World.Traced, SameButExit, SwitchedSince;
      ghost var before := world.mon;
      var ran := PgUpgrade(false);
      ExitMeans(before, world.mon);
      var upgraded :- ran;
      if !upgraded {
        return Returned(false);
      }
      ghost var between := world.mon;
      if Allowed(before, PgUpgradeStart(false, oldBinDir.value, binDir)) {
        UpgradeThenSwitch(before, world.mon, oldBinDir.value, binDir);
      }
      r := InstallUpgraded();
      SwitchMeans(between, world.mon);
    }

    /** The rest of do_upgrade after a successful pg_upgrade: it raises without libraries. */
    method InstallUpgraded() returns (r: Call<bool>)
      requires world.Valid() && fs.Valid()
      requires AtHome() && newDataDir == Some(NewDir(dataDir))
      requires dataDir in fs.dirs && fs.dirs[dataDir] == Linked && NewDir(dataDir) in fs.dirs && fs.dirs[NewDir(dataDir)] == Upgraded
      modifies `parameters, `oldDataDir, fs, world`trace, world`mon, world`legal, world`faulty
      ensures world.Valid() && fs.Valid() && old(fs.log) <= fs.log
      ensures oldPreload.None? ==> r.Raised? && world.mon == old(world.mon) && world.legal == old(world.legal)
      ensures oldPreload.Some? ==>
                && SwitchedSince(old(world.mon), world.mon)
                && world.legal == (old(world.legal) && Allowed(old(world.mon), SwitchDirs))
      ensures (old(fs.faulty) ==> fs.faulty) && (old(world.faulty) ==> world.faulty)
      ensures r != Returned(true) ==> fs.faulty || world.faulty || oldPreload.None?
      ensures r == Returned(true) ==>
                && fs.dirs == (old(fs.dirs) - {OldDir(dataDir), NewDir(dataDir)})[dataDir := Upgraded]
                && parameters == if Given(oldPreload) then old(parameters)[SharedPreload := oldPreload.value] else old(parameters)
      ensures old(fs.kept) ==> fs.kept
    {
      hide KeepsData, FileSystem.Valid, World.Valid, Observe, Allowed;
      var _ :- RestoreSharedPreloadLibraries();
      r := SwitchAndCleanup();
    }

    /** switch_pgdata and cleanup_old_pgdata after a successful pg_upgrade. */
    method SwitchAndCleanup() returns (r: Call<bool>)
      requires world.Valid() && fs.Valid()
      requires AtHome() && newDataDir == Some(NewDir(dataDir))
      requires dataDir in fs.dirs && fs.dirs[dataDir] == Linked && NewDir(dataDir) in fs.dirs && fs.dirs[NewDir(dataDir)] == Upgraded
      modifies `oldDataDir, fs, world`trace, world`mon, world`legal, world`faulty
      ensures world.Valid() && SwitchedSince(old(world.mon), world.mon)
      ensures world.legal == (old(world.legal) && Allowed(old(world.mon), SwitchDirs))
      ensures fs.Valid() && old(fs.log) <= fs.log
      ensures (old(fs.faulty) ==> fs.faulty) && (old(world.faulty) ==> world.faulty)
      ensures r != Returned(true) ==> fs.faulty || world.faulty
      ensures r == Returned(true) ==>
                fs.dirs == (old(fs.dirs) - {OldDir(dataDir), NewDir(dataDir)})[dataDir := Upgraded]
      ensures old(fs.kept) ==> fs.kept
    {
      hide KeepsData, FileSystem.Valid, World.Valid, Observe, Allowed;
      var _ :- SwitchPgdata();
      MayRemoveOld(fs.home, fs.dirs);
      r := CleanupOldPgdata();
    }
  }
}
