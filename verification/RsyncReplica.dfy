/** rsync_replica of major_upgrade/inplace_upgrade.py: what a replica does when the
    primary tells it to follow. */
module RsyncReplicas {
  import opened Wrappers
  import opened FileSystems
  import opened Protocol
  import opened Environment
  import opened PgUpgrade

  /** The replica holds what it held before, but for `_old` and `_new`. */
  predicate RolledBack(d: Dirs, e: Dirs, home: string)
    requires home in d
  {
    && home in e && e[home] == d[home] && OldDir(home) !in e
    && e - {OldDir(home), NewDir(home)} == d - {OldDir(home), NewDir(home)}
  }

  /** What rsync leaves of a replica with the directories d. */
  function Left(d: Dirs, data: string, transfer: Transfer): Dirs
    requires data in d
  {
    After(Switched(d, data, None), data, transfer)
  }

  /** rsync leaves data_old behind, in whatever state. */
  predicate OldLeft(transfer: Transfer) {
    transfer.steps == [] || transfer.steps[|transfer.steps| - 1].1.Some?
  }

  /** The directories after a failed rsync and switch_back_pgdata. */
  function Undone(d: Dirs, data: string, transfer: Transfer): Dirs
    requires data in d && OldLeft(transfer)
  {
    SwitchedBack(Left(d, data, transfer), data)
  }

  // ---- What a failed rsync costs -----------------------------------------------------------

  /** rsync left data_old as it was. */
  predicate OldWhole(d: Dirs, data: string, transfer: Transfer)
    requires data in d
  {
    transfer.steps == [] || transfer.steps[|transfer.steps| - 1].1 == Some(d[data])
  }

  /** The rollback restores the replica exactly when rsync left data_old whole: rsync works on
      data_old too, and deletes there what the primary does not have. */
  lemma RollsBackIffWhole(d: Dirs, data: string, transfer: Transfer)
    requires data in d && OldLeft(transfer)
    ensures RolledBack(d, Undone(d, data, transfer), data) <==> OldWhole(d, data, transfer)
  {
    var e := Left(d, data, transfer);
    assert transfer.steps == [] ==> e == Switched(d, data, None);
  }

  predicate Whole(i: Option<Image>) {
    i.Some? && Complete(i.value)
  }

  /** At every moment of an rsync a complete copy exists exactly when one of the two
      directories it works on is complete, or an earlier data_new is. */
  lemma SafeDuringIff(d: Dirs, data: string, transfer: Transfer)
    requires data in d
    ensures (forall i :: 0 <= i < |transfer.steps| ==>
               Safe(data, States(Switched(d, data, None), data, transfer.steps)[i]))
            <==> forall i :: 0 <= i < |transfer.steps| ==>
                   Whole(transfer.steps[i].0) || Whole(transfer.steps[i].1) || Holds(d, NewDir(data))
  {
    var e := Switched(d, data, None);
    var states := States(e, data, transfer.steps);
    forall i | 0 <= i < |transfer.steps|
      ensures Safe(data, states[i]) <==> Whole(transfer.steps[i].0) || Whole(transfer.steps[i].1) || Holds(d, NewDir(data))
    {
      assert states[i] == Synced(e, data, transfer.steps[i]);
    }
  }

  /** After the rollback one exists exactly when rsync left data_old complete, or what it left
      in data is, which is data_new then, or it left no data and an earlier data_new is. */
  lemma SafeAfterIff(d: Dirs, data: string, transfer: Transfer)
    requires data in d && OldLeft(transfer) && transfer.steps != []
    ensures
      var step := transfer.steps[|transfer.steps| - 1];
      Safe(data, Undone(d, data, transfer))
      <==> Whole(step.1) || (if step.0.Some? then Whole(step.0) else Holds(d, NewDir(data)))
  {
  }

  /** What rsync did leaves a complete copy, also for the rollback to move about: every write
      one in `data` or `data_old`, or an earlier `data_new` is one; and the last write one of the
      former two, unless it left no `data`, which spares `data_new`. */
  predicate LeavesACopy(d: Dirs, data: string, transfer: Transfer) {
    && (forall i :: 0 <= i < |transfer.steps| ==>
          Whole(transfer.steps[i].0) || Whole(transfer.steps[i].1) || Holds(d, NewDir(data)))
    && (transfer.steps != [] && transfer.steps[|transfer.steps| - 1].0.Some? ==>
          Whole(transfer.steps[|transfer.steps| - 1].0) || Whole(transfer.steps[|transfer.steps| - 1].1))
  }

  lemma WrittenSafely(log: seq<Dirs>, d: Dirs, data: string, transfer: Transfer)
    requires data in d
    ensures
      SafeFrom(data, log + States(Switched(d, data, None), data, transfer.steps), |log|)
      <==> forall i :: 0 <= i < |transfer.steps| ==>
             Whole(transfer.steps[i].0) || Whole(transfer.steps[i].1) || Holds(d, NewDir(data))
  {
    var states := States(Switched(d, data, None), data, transfer.steps);
    SafeDuringIff(d, data, transfer);
    assert |states| == |transfer.steps|;
    forall i | 0 <= i < |states|
      ensures (log + states)[|log| + i] == states[i]
    {
    }
    if SafeFrom(data, log + states, |log|) {
      forall i | 0 <= i < |transfer.steps|
        ensures Safe(data, states[i])
      {
        assert (log + states)[|log| + i] == states[i];
      }
    }
  }

  lemma LeftMayGoBack(log: seq<Dirs>, d: Dirs, data: string, transfer: Transfer)
    requires data in d && Complete(d[data]) && LeavesACopy(d, data, transfer)
    ensures MayGoBack(Left(d, data, transfer), data)
    ensures SafeFrom(data, log + States(Switched(d, data, None), data, transfer.steps), |log|)
  {
    WrittenSafely(log, d, data, transfer);
  }

  /** At an input: an rsync that stops in the middle of both directories of a replica with
      nothing else loses the cluster, and the rollback puts a partial directory in place. */
  lemma FailedRsyncLosesData(data: string)
    ensures
      var d, transfer := map[data := Old], Transfer([(Some(Partial), Some(Partial))], false);
      && !Safe(data, Left(d, data, transfer))
      && !RolledBack(d, Undone(d, data, transfer), data)
      && Undone(d, data, transfer)[data] == Partial
  {
  }

  // ---- The script -------------------------------------------------------------------------

  /** The events of a replica up to its rsync. */
  function FetchEvents(ok: bool): seq<Event> {
    [Stop(true), SwitchDirs, Ran(Configure, true), Ran(UpdateConfigs, true), Ran(Rsync, ok)]
  }

  /** And after one that worked: it waits for the new primary, and restarts Patroni between
      two attempts to remove recovery.conf. */
  function FollowEvents(there: bool, once: bool, twice: bool): seq<Event> {
    FetchEvents(true) + RestartEvents(there, once, twice)
  }

  function RestartEvents(there: bool, once: bool, twice: bool): seq<Event> {
    [Ran(AwaitPrimary, there), Ran(RemoveRecoveryConf, once), Ran(KillPatroni, true), Ran(RemoveRecoveryConf, twice)]
  }

  /** It is for us to act: we are a child of the backend that was told, the version differs,
      and we are the forked process. */
  predicate Acts(ours: bool, parent: bool, clusterVersion: string, desiredVersion: string) {
    ours && clusterVersion != desiredVersion && !parent
  }

  /** rsync_replica, for an rsync that does what `transfer` says: the return value is the exit
      status. Where it does not raise it ends with the upgraded directory, or with what the
      rollback makes of what a failed rsync left, or, when the server does not stop or it is not
      for us to act, with the old one. A complete copy exists at every moment if rsync leaves
      one, and exactly then in a run that finishes; every step keeps the data if rsync spares
      data_old. */
  method RsyncReplica(pg: PostgresqlUpgrade, clusterVersion: string, desiredVersion: string, ours: bool, parent: bool,
                      transfer: Transfer)
    returns (r: Call<int>)
    requires pg.world.Valid() && pg.world.legal && pg.world.mon.id.role == Replica && !pg.world.mon.server.switched
    requires pg.fs.Valid() && pg.fs.kept && pg.AtHome() && pg.dataDir in pg.fs.dirs && pg.fs.dirs[pg.dataDir] == Old
    requires pg.newDataDir.None? && transfer.Valid()
    modifies pg`oldDataDir, pg`newDataDir, pg.fs, pg.world`trace, pg.world`mon, pg.world`legal, pg.world`faulty
    ensures pg.world.Valid() && pg.world.legal
    ensures pg.fs.Valid() && old(pg.fs.log) <= pg.fs.log
    ensures Spares(transfer, Old) ==> pg.fs.kept
    ensures LeavesACopy(old(pg.fs.dirs), pg.dataDir, transfer) ==> SafeFrom(pg.dataDir, pg.fs.log, |old(pg.fs.log)| - 1)
    ensures r.Raised? ==> pg.world.faulty || pg.fs.faulty
    // not for us to act
    ensures !Acts(ours, parent, clusterVersion, desiredVersion) ==>
              && r == Returned(if ours then 0 else 1)
              && pg.world.trace == old(pg.world.trace) && pg.fs.log == old(pg.fs.log) && pg.fs.dirs == old(pg.fs.dirs)
    // with nothing failing the replica follows
    ensures Acts(ours, parent, clusterVersion, desiredVersion) && transfer.ok && !pg.world.faulty && !pg.fs.faulty ==>
              && r == Returned(1)
              && pg.fs.dirs == (old(pg.fs.dirs) - {OldDir(pg.dataDir)})[pg.dataDir := Upgraded]
              && pg.world.trace == old(pg.world.trace) + FollowEvents(true, true, true)
    // every way to return
    ensures Acts(ours, parent, clusterVersion, desiredVersion) && r.Returned? ==>
              && r.value == 1
              && (|| Unstopped(old(pg.world.trace), pg.world.trace, old(pg.fs.log), pg.fs.log)
                  || Upgrades(old(pg.world.trace), pg.world.trace, old(pg.fs.dirs), pg.fs.dirs, pg.dataDir)
                  || (OldLeft(transfer) && RollsBack(old(pg.world.trace), pg.world.trace, old(pg.fs.dirs), pg.fs.dirs, pg.dataDir, transfer)))
              && (Unstopped(old(pg.world.trace), pg.world.trace, old(pg.fs.log), pg.fs.log)
                  || (SafeFrom(pg.dataDir, pg.fs.log, |old(pg.fs.log)| - 1) <==> LeavesACopy(old(pg.fs.dirs), pg.dataDir, transfer)))
    ensures OldLeft(transfer) && RollsBack(old(pg.world.trace), pg.world.trace, old(pg.fs.dirs), pg.fs.dirs, pg.dataDir, transfer) ==>
              (RolledBack(old(pg.fs.dirs), pg.fs.dirs, pg.dataDir) <==> OldWhole(old(pg.fs.dirs), pg.dataDir, transfer))
  {
    hide KeepsData, FileSystem.Valid, World.Valid, Observe, Allowed, Undone, RolledBack, OldWhole, Spares, LeavesACopy, SafeFrom;
    hide Upgrades, Unstopped;
    LastLogged(pg.fs);
    pg.fs.SafeSoFar(|pg.fs.log| - 1);
    if OldLeft(transfer) {
      RollsBackIffWhole(pg.fs.dirs, pg.dataDir, transfer);
    }
    if !ours {
      return Returned(1);
    }
    if clusterVersion == desiredVersion {
      return Returned(0);
    }
    if parent {
      return Returned(0);
    }
    r := Follow(pg, transfer);
  }

  /** The server did not stop, and nothing else was done. */
  predicate Unstopped(before: seq<Event>, after: seq<Event>, log: seq<Dirs>, now: seq<Dirs>) {
    after == before + [Stop(false)] && now == log
  }

  /** The replica has the upgraded directory, and no old one. */
  ghost predicate Upgrades(before: seq<Event>, after: seq<Event>, d: Dirs, e: Dirs, data: string) {
    && (exists there, once, twice :: after == before + FollowEvents(there, once, twice))
    && e == (d - {OldDir(data)})[data := Upgraded]
  }

  /** A failed rsync was undone. */
  predicate RollsBack(before: seq<Event>, after: seq<Event>, d: Dirs, e: Dirs, data: string, transfer: Transfer)
    requires data in d && OldLeft(transfer)
  {
    !transfer.ok && after == before + FetchEvents(false) + [SwitchDirsBack] && e == Undone(d, data, transfer)
  }

  /** The forked child: stop, switch, fetch the upgraded directory. */
  method Follow(pg: PostgresqlUpgrade, transfer: Transfer) returns (r: Call<int>)
    requires pg.world.Valid() && pg.world.legal && pg.world.mon.id.role == Replica && !pg.world.mon.server.switched
    requires pg.fs.Valid() && pg.fs.kept && pg.AtHome() && pg.dataDir in pg.fs.dirs && pg.fs.dirs[pg.dataDir] == Old
    requires pg.newDataDir.None? && transfer.Valid()
    modifies pg`oldDataDir, pg`newDataDir, pg.fs, pg.world`trace, pg.world`mon, pg.world`legal, pg.world`faulty
    ensures pg.world.Valid() && pg.world.legal
    ensures pg.fs.Valid() && old(pg.fs.log) <= pg.fs.log
    ensures Spares(transfer, Old) ==> pg.fs.kept
    ensures LeavesACopy(old(pg.fs.dirs), pg.dataDir, transfer) ==> SafeFrom(pg.dataDir, pg.fs.log, |old(pg.fs.log)| - 1)
    ensures r.Raised? ==> pg.world.faulty || pg.fs.faulty
    ensures transfer.ok && !pg.world.faulty && !pg.fs.faulty ==>
              && r == Returned(1)
              && pg.fs.dirs == (old(pg.fs.dirs) - {OldDir(pg.dataDir)})[pg.dataDir := Upgraded]
              && pg.world.trace == old(pg.world.trace) + FollowEvents(true, true, true)
    ensures r.Returned? ==>
              && r.value == 1
              && (|| Unstopped(old(pg.world.trace), pg.world.trace, old(pg.fs.log), pg.fs.log)
                  || Upgrades(old(pg.world.trace), pg.world.trace, old(pg.fs.dirs), pg.fs.dirs, pg.dataDir)
                  || (OldLeft(transfer) && RollsBack(old(pg.world.trace), pg.world.trace, old(pg.fs.dirs), pg.fs.dirs, pg.dataDir, transfer)))
              && (Unstopped(old(pg.world.trace), pg.world.trace, old(pg.fs.log), pg.fs.log)
                  || (SafeFrom(pg.dataDir, pg.fs.log, |old(pg.fs.log)| - 1) <==> LeavesACopy(old(pg.fs.dirs), pg.dataDir, transfer)))
  {
    hide KeepsData, FileSystem.Valid, World.Valid, Undone, Spares, LeavesACopy;
    hide Restarted, Upgrades, RollsBack, FollowEvents, OldLeft;
    ghost var n := |pg.fs.log| - 1;
    LastLogged(pg.fs);
    pg.fs.SafeSoFar(n);
    var stopped :- pg.world.StopPostgres();
    if !stopped {
      return Returned(1);
    }
    var switched := pg.SwitchPgdata();
    pg.fs.SafeSoFar(n);
    if switched.Raised? {
      return Raised;
    }
    ghost var before := pg.fs.log;
    ghost var so := pg.world.trace;
    r := Fetch(pg, old(pg.fs.dirs), transfer);
    if SafeFrom(pg.dataDir, pg.fs.log, |before|) {
      SafeThroughout(pg.dataDir, before, pg.fs.log, n);
    }
    FetchedSo(old(pg.world.trace), so, pg.world.trace, old(pg.fs.dirs), pg.fs.dirs, pg.dataDir, transfer);
  }

  /** What the events of the fetch mean after those of the stop and the switch. */
  lemma FetchedSo(start: seq<Event>, so: seq<Event>, after: seq<Event>, d: Dirs, e: Dirs, data: string, transfer: Transfer)
    requires so == start + [Stop(true)] + [SwitchDirs, Ran(Configure, true)] && data in d
    ensures Restarted(so + [Ran(UpdateConfigs, true), Ran(Rsync, true)], after, true) ==>
              after == start + FollowEvents(true, true, true)
    ensures Restarted(so + [Ran(UpdateConfigs, true), Ran(Rsync, true)], after, false) && e == (d - {OldDir(data)})[data := Upgraded] ==>
              Upgrades(start, after, d, e, data)
    ensures !transfer.ok && OldLeft(transfer) && e == Undone(d, data, transfer)
            && after == so + [Ran(UpdateConfigs, true), Ran(Rsync, false)] + [SwitchDirsBack] ==>
              RollsBack(start, after, d, e, data, transfer)
  {
    hide Undone, OldLeft;
    var there, once, twice :|
      Restarted(so + [Ran(UpdateConfigs, true), Ran(Rsync, true)], after, false) ==>
        after == so + [Ran(UpdateConfigs, true), Ran(Rsync, true)] + RestartEvents(there, once, twice);
    assert so + [Ran(UpdateConfigs, true), Ran(Rsync, true)] + RestartEvents(there, once, twice)
        == start + FollowEvents(there, once, twice);
  }

  lemma LastLogged(fs: FileSystem)
    requires fs.Valid()
    ensures fs.log != [] && fs.log[|fs.log| - 1] == fs.dirs
  {
  }

  /** rsync from the primary; a failure is rolled back, a success is kept. d are the
      directories before the switch. */
  method Fetch(pg: PostgresqlUpgrade, ghost d: Dirs, transfer: Transfer) returns (r: Call<int>)
    requires pg.world.Valid() && pg.world.legal && pg.world.mon.id.role == Replica && pg.world.mon.server.switched
    requires pg.fs.Valid() && pg.fs.kept && pg.AtHome() && pg.dataDir in d && d[pg.dataDir] == Old && transfer.Valid()
    requires pg.fs.dirs == Switched(d, pg.dataDir, None) && pg.oldDataDir == Some(OldDir(pg.dataDir))
    modifies pg`newDataDir, pg.fs, pg.world`trace, pg.world`mon, pg.world`legal, pg.world`faulty
    ensures pg.world.Valid() && pg.world.legal
    ensures pg.fs.Valid() && old(pg.fs.log) <= pg.fs.log
    ensures Spares(transfer, Old) ==> pg.fs.kept
    ensures LeavesACopy(d, pg.dataDir, transfer) ==> SafeFrom(pg.dataDir, pg.fs.log, |old(pg.fs.log)|)
    ensures r.Returned? ==>
              (SafeFrom(pg.dataDir, pg.fs.log, |old(pg.fs.log)|) <==> LeavesACopy(d, pg.dataDir, transfer))
    ensures (old(pg.world.faulty) ==> pg.world.faulty) && (old(pg.fs.faulty) ==> pg.fs.faulty)
    ensures r.Raised? ==> pg.world.faulty || pg.fs.faulty
    ensures transfer.ok && !pg.world.faulty && !pg.fs.faulty ==>
              r.Returned? && Restarted(old(pg.world.trace) + [Ran(UpdateConfigs, true), Ran(Rsync, true)], pg.world.trace, true)
    ensures r.Returned? && transfer.ok ==>
              && r.value == 1 && pg.fs.dirs == (d - {OldDir(pg.dataDir)})[pg.dataDir := Upgraded]
              && Restarted(old(pg.world.trace) + [Ran(UpdateConfigs, true), Ran(Rsync, true)], pg.world.trace, false)
    ensures r.Returned? && !transfer.ok ==>
              && r.value == 1 && OldLeft(transfer) && pg.fs.dirs == Undone(d, pg.dataDir, transfer)
              && pg.world.trace == old(pg.world.trace) + [Ran(UpdateConfigs, true), Ran(Rsync, false)] + [SwitchDirsBack]
  {
    hide KeepsData, FileSystem.Valid, World.Valid, Observe, Allowed, Spares, LeavesACopy, Switched, After, States, Undone, OldLeft;
    hide Restarted;
    var _ :- pg.world.Do(UpdateConfigs);
    StashedFor(d, pg.dataDir, transfer);
    ghost var log := pg.fs.log;
    var ok := pg.fs.Sync(pg.dataDir, transfer);
    pg.world.Report(Rsync, ok);
    assert pg.world.trace == old(pg.world.trace) + [Ran(UpdateConfigs, true), Ran(Rsync, ok)];
    if LeavesACopy(d, pg.dataDir, transfer) {
      LeftMayGoBack(log, d, pg.dataDir, transfer);
    }
    ghost var written := pg.fs.log;
    r := Settle(pg, d, transfer);
    if LeavesACopy(d, pg.dataDir, transfer) {
      SafeThroughout(pg.dataDir, written, pg.fs.log, |log|);
    } else if r.Returned? {
      LastLogged(pg.fs);
      NoCopyLeft(log, pg.fs.log, d, pg.dataDir, transfer);
    }
  }

  /** What follows an rsync that worked, or did not. */
  method Settle(pg: PostgresqlUpgrade, ghost d: Dirs, transfer: Transfer) returns (r: Call<int>)
    requires pg.world.Valid() && pg.world.legal && pg.world.mon.id.role == Replica && pg.world.mon.server.switched
    requires pg.world.mon.Did(UpdateConfigs) && (!transfer.ok ==> pg.fs.faulty)
    requires pg.fs.Valid() && pg.AtHome() && pg.dataDir in d && d[pg.dataDir] == Old && transfer.Valid()
    requires pg.fs.dirs == Left(d, pg.dataDir, transfer) && pg.oldDataDir == Some(OldDir(pg.dataDir))
    modifies pg`newDataDir, pg.fs, pg.world`trace, pg.world`mon, pg.world`legal, pg.world`faulty
    ensures pg.world.Valid() && pg.world.legal
    ensures pg.fs.Valid() && old(pg.fs.log) <= pg.fs.log
    ensures old(pg.fs.kept) && Spares(transfer, Old) ==> pg.fs.kept
    ensures old(MayGoBack(pg.fs.dirs, pg.dataDir)) ==> SafeFrom(pg.dataDir, pg.fs.log, |old(pg.fs.log)|)
    ensures (old(pg.world.faulty) ==> pg.world.faulty) && (old(pg.fs.faulty) ==> pg.fs.faulty)
    ensures r.Raised? ==> pg.world.faulty || pg.fs.faulty
    ensures transfer.ok && !pg.world.faulty && !pg.fs.faulty ==>
              r.Returned? && Restarted(old(pg.world.trace), pg.world.trace, true)
    ensures r.Returned? && transfer.ok ==>
              && r.value == 1 && pg.fs.dirs == (d - {OldDir(pg.dataDir)})[pg.dataDir := Upgraded]
              && Restarted(old(pg.world.trace), pg.world.trace, false)
    ensures r.Returned? && !transfer.ok ==>
              && r.value == 1 && OldLeft(transfer) && pg.fs.dirs == Undone(d, pg.dataDir, transfer)
              && pg.world.trace == old(pg.world.trace) + [SwitchDirsBack]
  {
    hide KeepsData, FileSystem.Valid, World.Valid, Spares, Left, Undone, OldLeft, Restarted;
    if transfer.ok {
      FetchedLive(d, pg.dataDir, transfer);
      r := RestartAndCleanup(pg);
    } else {
      if Spares(transfer, Old) {
        SparedOld(d, pg.dataDir, transfer);
      }
      r := Undo(pg, d, transfer);
    }
  }

  /** The events of the restart have been added; all of them worked if `well`. */
  ghost predicate Restarted(before: seq<Event>, after: seq<Event>, well: bool) {
    exists there, once, twice ::
      after == before + RestartEvents(there, once, twice) && (well ==> there && once && twice)
  }

  /** Otherwise there is a moment without a complete copy, if only after the rollback. */
  lemma NoCopyLeft(before: seq<Dirs>, log: seq<Dirs>, d: Dirs, data: string, transfer: Transfer)
    requires data in d && transfer.Valid() && !LeavesACopy(d, data, transfer)
    requires before + States(Switched(d, data, None), data, transfer.steps) <= log
    requires !transfer.ok ==> OldLeft(transfer) && log != [] && log[|log| - 1] == Undone(d, data, transfer)
    ensures !SafeFrom(data, log, |before|)
  {
    var written := before + States(Switched(d, data, None), data, transfer.steps);
    assert |written| == |before| + |transfer.steps|;
    hide Undone, States;
    WrittenSafely(before, d, data, transfer);
    if SafeFrom(data, written, |before|) {
      SafeAfterIff(d, data, transfer);
    } else {
      var i :| |before| <= i < |written| && !Safe(data, written[i]);
      assert log[i] == written[i];
    }
  }

  lemma FetchedLive(d: Dirs, data: string, transfer: Transfer)
    requires data in d && transfer.Valid() && transfer.ok
    ensures
      var e := Left(d, data, transfer);
      Holds(e, data) && e - {OldDir(data)} == (d - {OldDir(data)})[data := Upgraded]
  {
  }

  lemma StashedFor(d: Dirs, data: string, transfer: Transfer)
    requires data in d && d[data] == Old
    ensures
      var e := Switched(d, data, None);
      data !in e && Holds(e, OldDir(data)) && e[OldDir(data)] == Old
  {
  }

  lemma SparedOld(d: Dirs, data: string, transfer: Transfer)
    requires data in d && d[data] == Old && Spares(transfer, Old)
    ensures Holds(Left(d, data, transfer), OldDir(data))
  {
  }

  method RestartAndCleanup(pg: PostgresqlUpgrade) returns (r: Call<int>)
    requires pg.world.Valid() && pg.world.mon.id.role == Replica && pg.world.mon.server.switched && pg.world.mon.Did(UpdateConfigs)
    requires pg.fs.Valid() && pg.AtHome() && Holds(pg.fs.dirs, pg.dataDir) && pg.oldDataDir == Some(OldDir(pg.dataDir))
    modifies pg.fs, pg.world`trace, pg.world`mon, pg.world`legal, pg.world`faulty
    ensures pg.world.Valid() && pg.world.legal == old(pg.world.legal)
    ensures pg.fs.Valid() && old(pg.fs.log) <= pg.fs.log && (old(pg.fs.kept) ==> pg.fs.kept)
    ensures (old(pg.world.faulty) ==> pg.world.faulty) && (old(pg.fs.faulty) ==> pg.fs.faulty)
    ensures r.Raised? ==> pg.world.faulty || pg.fs.faulty
    ensures r.Returned? ==>
              && r.value == 1 && pg.fs.dirs == old(pg.fs.dirs) - {OldDir(pg.dataDir)}
              && Restarted(old(pg.world.trace), pg.world.trace, false)
    ensures !pg.world.faulty ==> Restarted(old(pg.world.trace), pg.world.trace, true)
    ensures SafeFrom(pg.dataDir, pg.fs.log, |old(pg.fs.log)|)
  {
    hide KeepsData, FileSystem.Valid, World.Valid, Restarted;
    var _ :- Restart(pg.world);
    MayRemoveOld(pg.fs.home, pg.fs.dirs);
    var cleaned := pg.CleanupOldPgdata();
    SafeWhileTouched(pg.dataDir, pg.fs.log, |old(pg.fs.log)|, old(pg.fs.dirs), OldDir(pg.dataDir));
    if cleaned.Raised? {
      return Raised;
    }
    r := Returned(if cleaned.value then 1 else 0);   // True as an exit status
  }

  /** Wait for the new primary and restart Patroni. */
  method Restart(world: World) returns (r: Call<()>)
    requires world.Valid() && world.mon.id.role == Replica && world.mon.server.switched && world.mon.Did(UpdateConfigs)
    modifies world`trace, world`mon, world`legal, world`faulty
    ensures world.Valid() && world.legal == old(world.legal) && (old(world.faulty) ==> world.faulty)
    ensures r.Raised? ==> world.faulty
    ensures r.Returned? ==> Restarted(old(world.trace), world.trace, false)
    ensures !world.faulty ==> r.Returned? && Restarted(old(world.trace), world.trace, true)
  {
    hide World.Valid;
    var there := world.Do(AwaitPrimary);
    var once := world.Do(RemoveRecoveryConf);
    var _ :- world.KillPatroni();
    var twice := world.Do(RemoveRecoveryConf);
    assert world.trace == old(world.trace) + RestartEvents(there.Returned?, once.Returned?, twice.Returned?);
    r := Returned(());
  }

  method Undo(pg: PostgresqlUpgrade, ghost d: Dirs, ghost transfer: Transfer) returns (r: Call<int>)
    requires pg.world.Valid() && pg.world.legal && pg.fs.Valid() && pg.fs.faulty
    requires pg.AtHome() && pg.dataDir in d && pg.oldDataDir == Some(OldDir(pg.dataDir))
    requires pg.fs.dirs == Left(d, pg.dataDir, transfer)
    modifies pg`newDataDir, pg.fs, pg.world`trace, pg.world`mon, pg.world`legal, pg.world`faulty
    ensures pg.world.Valid() && pg.world.legal && !pg.world.mon.server.switched
    ensures pg.fs.Valid() && old(pg.fs.log) <= pg.fs.log && (old(pg.fs.kept && Holds(pg.fs.dirs, OldDir(pg.dataDir))) ==> pg.fs.kept)
    ensures pg.world.faulty == old(pg.world.faulty) && pg.fs.faulty
    ensures old(MayGoBack(pg.fs.dirs, pg.dataDir)) ==> SafeFrom(pg.dataDir, pg.fs.log, |old(pg.fs.log)|)
    ensures pg.world.trace == old(pg.world.trace) + [SwitchDirsBack]
    ensures r.Returned? ==> r.value == 1 && OldLeft(transfer) && pg.fs.dirs == Undone(d, pg.dataDir, transfer)
  {
    hide KeepsData, FileSystem.Valid, World.Valid, SwitchedBack;
    var _ :- pg.SwitchBackPgdata();
    r := Returned(1);
  }
}
