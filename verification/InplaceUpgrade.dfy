/** major_upgrade/inplace_upgrade.py: the in-place upgrade of a primary and its
    replicas. Every method that stands for a step of the source keeps the trace
    legal; what legal traces promise is in ProtocolTheorems. */
module InplaceUpgrades {
  import opened Wrappers
  import opened FileSystems
  import opened Protocol
  import opened ProtocolTheorems
  import opened Environment
  import opened SpiloCommons
  import opened ServerParameters
  import opened PgUpgrade

  /** What sanity_checks asks of the cluster before it looks at the replicas. */
  predicate Sane(c: Cluster, me: string, replicaCount: int) {
    && c.initialize.Some? && c.initialize.value != ""
    && |c.members| == replicaCount
    && !IsPaused(c.config)
    && c.leader == Some(me)
  }

  /** The names of the members other than me. */
  function Others(members: seq<Member>, me: string): set<string> {
    set m | m in members && m.name != me :: m.name
  }

  lemma OthersSnoc(members: seq<Member>, m: Member, me: string)
    ensures Others(members + [m], me) == Others(members, me) + if m.name != me then {m.name} else {}
  {
    forall x
      ensures x in Others(members + [m], me) <==> x in Others(members, me) + if m.name != me then {m.name} else {}
    {
      if x in Others(members, me) {
        var k :| k in members && k.name != me && k.name == x;
        assert k in members + [m];
      }
      if x in Others(members + [m], me) {
        var k :| k in members + [m] && k.name != me && k.name == x;
        assert k in members || k == m;
      }
      if m.name != me && x == m.name {
        assert m in members + [m];
      }
    }
  }

  class InplaceUpgrade {
    const pg: PostgresqlUpgrade
    const clusterVersion: Version
    const desiredVersion: Version
    const upgradeRequired: bool
    var paused: bool
    var upgradeComplete: bool
    var rsyncdConfigsCreated: bool
    var rsyncdStarted: bool
    var replicaConnections: map<string, string>   // name -> address
    var replicaCount: int

    constructor (pg: PostgresqlUpgrade, clusterVersion: Version, desiredVersion: Version)
      ensures this.pg == pg && this.clusterVersion == clusterVersion && this.desiredVersion == desiredVersion
      ensures upgradeRequired == (clusterVersion.number < desiredVersion.number)
      ensures !paused && !upgradeComplete && !rsyncdConfigsCreated && !rsyncdStarted
    {
      this.pg, this.clusterVersion, this.desiredVersion := pg, clusterVersion, desiredVersion;
      upgradeRequired := clusterVersion.number < desiredVersion.number;
      paused, upgradeComplete, rsyncdConfigsCreated, rsyncdStarted := false, false, false, false;
      replicaConnections, replicaCount := map[], 0;
    }

    // ---- The pause ------------------------------------------------------------------

    /** Some polls of the members' pause state; true once all of `names` that are
        still members report p. */
    method AwaitPauseState(names: set<string>, p: bool) returns (r: Call<bool>)
      requires pg.world.Valid() && names == pg.world.mon.pause.waitNames
      modifies pg.world
      ensures pg.world.Valid() && pg.world.legal == old(pg.world.legal) && pg.world.Undisturbed()
      ensures SameButDcs(old(pg.world.mon), pg.world.mon)
      ensures r != Returned(true) ==> pg.world.faulty
      ensures |old(pg.world.trace)| < |pg.world.trace|
      ensures r == Returned(true) ==>
                pg.world.mon.dcs.lastRead.Some? && AllReport(pg.world.mon.dcs.lastRead.value, names, p)
      ensures r == Returned(true) && p && names == old(pg.world.mon.pause.ackNames) && old(pg.world.mon.pause.owned)
              ==> pg.world.mon.pause.acked
    {
      hide Allowed;
      var rounds := AnyCount();
      for i := 0 to rounds + 1
        invariant pg.world.Valid() && pg.world.legal == old(pg.world.legal) && pg.world.Undisturbed()
        invariant SameButDcs(old(pg.world.mon), pg.world.mon)
        invariant i > 0 ==> MayTimeOut(pg.world.mon, PauseLoop(p))
        invariant |old(pg.world.trace)| <= |pg.world.trace|
      {
        var cluster :- pg.world.GetCluster();
        if AllReport(cluster, names, p) {
          return Returned(true);
        }
      }
      pg.world.TimeOut(PauseLoop(p));
      r := Returned(false);
    }

    /** The compare-and-set of toggle_pause, for the cluster just read. */
    method WritePause(cluster: Cluster, p: bool) returns (r: Call<bool>)
      requires pg.world.Valid() && paused == pg.world.mon.pause.owned
      requires pg.world.mon.dcs.lastRead == Some(cluster) && IsPaused(cluster.config) != p
      requires cluster.version < |pg.world.configs| && pg.world.configs[cluster.version] == cluster.config
      modifies `paused, pg.world
      ensures pg.world.Valid() && paused == pg.world.mon.pause.owned
      ensures (old(pg.world.faulty) ==> pg.world.faulty) && (r != Returned(true) ==> pg.world.faulty)
      ensures SameButDcsAndPause(old(pg.world.mon), pg.world.mon)
      ensures old(pg.world.legal) && (if p then MayPause(old(pg.world.mon)) else old(paused)) ==> pg.world.legal
      ensures r == Returned(true) ==>
                && paused == p && pg.world.mon.pause.waitNames == ApiNames(cluster)
                && (p ==> pg.world.mon.pause.ackNames == ApiNames(cluster))
      ensures |old(pg.world.trace)| < |pg.world.trace|
      ensures r != Returned(true) ==>
                && paused == old(paused)
                && pg.world.trace != [] && ResumeFailed(pg.world.trace[|pg.world.trace| - 1])
    {
      r := pg.world.SetConfigValue(cluster.config["pause" := Bool(p)], cluster.version);
      if r == Returned(true) {
        paused := p;
      }
    }

    /** toggle_pause: refuses when the cluster already is in the asked state, then
        writes with a compare-and-set, then waits for the members. */
    method TogglePause(p: bool) returns (r: Call<bool>)
      requires pg.world.Valid() && paused == pg.world.mon.pause.owned
      modifies `paused, pg.world
      ensures pg.world.Valid() && paused == pg.world.mon.pause.owned
      ensures (old(pg.world.faulty) ==> pg.world.faulty) && |old(pg.world.trace)| < |pg.world.trace|
      ensures SameButDcsAndPause(old(pg.world.mon), pg.world.mon)
      ensures old(pg.world.legal) && (if p then MayPause(old(pg.world.mon)) else old(paused)) ==> pg.world.legal
      ensures r == Returned(true) ==>
                && paused == p && (p ==> pg.world.mon.pause.acked)
                && pg.world.mon.dcs.lastRead.Some?
                && AllReport(pg.world.mon.dcs.lastRead.value, pg.world.mon.pause.waitNames, p)
      ensures r != Returned(true) ==> pg.world.faulty || IsPaused(old(pg.world.config)) == p
      ensures !p && old(paused) && paused ==> pg.world.trace != [] && ResumeFailed(pg.world.trace[|pg.world.trace| - 1])
    {
      hide Allowed;
      var cluster :- pg.world.GetCluster();
      if IsPaused(cluster.config) == p {
        return Returned(false);
      }
      var written :- WritePause(cluster, p);
      if !written {
        return Returned(false);
      }
      r := AwaitPauseState(ApiNames(cluster), p);
    }

    /** resume_cluster: only a pause of our own, and whatever happens is caught. */
    method ResumeCluster()
      requires pg.world.Valid() && paused == pg.world.mon.pause.owned
      modifies `paused, pg.world
      ensures pg.world.Valid() && paused == pg.world.mon.pause.owned
      ensures old(pg.world.faulty) ==> pg.world.faulty
      ensures SameButDcsAndPause(old(pg.world.mon), pg.world.mon)
      ensures old(pg.world.legal) ==> pg.world.legal
      ensures !old(paused) ==> !paused && pg.world.trace == old(pg.world.trace) && pg.world.mon == old(pg.world.mon)
      ensures |old(pg.world.trace)| <= |pg.world.trace|
      ensures paused ==>
                |old(pg.world.trace)| < |pg.world.trace| && ResumeFailed(pg.world.trace[|pg.world.trace| - 1])
    {
      if paused {
        var _ := TogglePause(false);
      }
    }

    // ---- The replicas before the upgrade -----------------------------------------------

    /** The inner function ensure_replica_state. */
    method EnsureReplicaState(m: Member, lags: map<string, int>) returns (r: Call<bool>)
      requires pg.world.Valid()
      modifies `replicaConnections, pg.world`trace, pg.world`mon, pg.world`legal, pg.world`faulty
      ensures pg.world.Valid() && pg.world.legal == old(pg.world.legal) && (old(pg.world.faulty) ==> pg.world.faulty)
      ensures SameButHealth(old(pg.world.mon), pg.world.mon)
      ensures r == Returned(true) ==>
                && LagOk(m, lags)
                && replicaConnections == old(replicaConnections)[m.name := m.host]
                && pg.world.mon.health.healthy == old(pg.world.mon.health.healthy) + {m.name}
                && pg.world.mon.health.recovering == old(pg.world.mon.health.recovering) + {m.name}
      ensures r != Returned(true) ==>
                replicaConnections == old(replicaConnections) && (pg.world.faulty || !LagOk(m, lags))
    {
      if !LagOk(m, lags) {
        return Returned(false);
      }
      var healthy := pg.world.CheckApi(m.name);
      if !healthy {
        return Returned(false);
      }
      r := pg.world.ConnectAndCheckRecovery(m.name);
      if r == Returned(true) {
        replicaConnections := replicaConnections[m.name := m.host];
      }
    }

    /** ensure_replicas_state: stops at the first member that is not fit. */
    method EnsureReplicasState(cluster: Cluster) returns (r: Call<bool>)
      requires pg.world.Valid()
      modifies `replicaConnections, pg.world`trace, pg.world`mon, pg.world`legal, pg.world`faulty
      ensures pg.world.Valid() && pg.world.legal == old(pg.world.legal) && (old(pg.world.faulty) ==> pg.world.faulty)
      ensures pg.world.mon == old(pg.world.mon).(health := pg.world.mon.health)
      ensures r == Returned(true) ==>
                && replicaConnections.Keys == OtherNames(cluster, pg.name)
                && LagsOk(cluster.members, pg.name, pg.world.mon.health.lags)
                && replicaConnections.Keys <= pg.world.mon.health.healthy
                && replicaConnections.Keys <= pg.world.mon.health.recovering
      ensures r != Returned(true) ==> pg.world.faulty || !LagsOk(cluster.members, pg.name, pg.world.mon.health.lags)
    {
      hide Observe, Allowed, World.Valid, LagOk, World.Added, World.Unanswered, SameButHealth;
      assert Others(cluster.members[..0], pg.name) == {};
      hide Others;
      replicaConnections := map[];
      ghost var before := pg.world.mon;
      var lags :- pg.world.QueryStreaming();
      StreamingSeen(before, lags);
      var members := cluster.members;
      for i := 0 to |members|
        invariant pg.world.Valid() && pg.world.legal == old(pg.world.legal) && (old(pg.world.faulty) ==> pg.world.faulty)
        invariant pg.world.mon == old(pg.world.mon).(health := pg.world.mon.health) && pg.world.mon.health.lags == lags
        invariant replicaConnections.Keys == Others(members[..i], pg.name)
        invariant LagsOk(members[..i], pg.name, lags)
        invariant replicaConnections.Keys <= pg.world.mon.health.healthy
        invariant replicaConnections.Keys <= pg.world.mon.health.recovering
      {
        assert members[..i + 1] == members[..i] + [members[i]];
        OthersSnoc(members[..i], members[i], pg.name);
        if members[i].name != pg.name {
          ghost var m := pg.world.mon;
          var fit := EnsureReplicaState(members[i], lags);
          HealthOnly(m, pg.world.mon);
          if fit != Returned(true) {
            return fit;
          }
        }
      }
      assert members[..|members|] == members;
      r := Returned(true);
    }

    method SanityChecks(cluster: Cluster) returns (r: Call<bool>)
      requires pg.world.Valid()
      modifies `replicaConnections, pg.world`trace, pg.world`mon, pg.world`legal, pg.world`faulty
      ensures pg.world.Valid() && pg.world.legal == old(pg.world.legal) && (old(pg.world.faulty) ==> pg.world.faulty)
      ensures pg.world.mon == old(pg.world.mon).(health := pg.world.mon.health)
      ensures r == Returned(true) ==>
                && Sane(cluster, pg.name, replicaCount)
                && replicaConnections.Keys == OtherNames(cluster, pg.name)
                && LagsOk(cluster.members, pg.name, pg.world.mon.health.lags)
                && replicaConnections.Keys <= pg.world.mon.health.healthy
                && replicaConnections.Keys <= pg.world.mon.health.recovering
      ensures r != Returned(true) ==>
                || pg.world.faulty
                || !Sane(cluster, pg.name, replicaCount)
                || !LagsOk(cluster.members, pg.name, pg.world.mon.health.lags)
    {
      hide Allowed, Observe;
      if !(cluster.initialize.Some? && cluster.initialize.value != "") {
        return Returned(false);
      }
      if |cluster.members| != replicaCount {
        return Returned(false);
      }
      if IsPaused(cluster.config) {
        return Returned(false);
      }
      if cluster.leader != Some(pg.name) {
        return Returned(false);
      }
      r := EnsureReplicasState(cluster);
    }

    // ---- Catching up ----------------------------------------------------------------------

    /** One round of wait_for_replicas; `status` keeps what each has replayed. */
    method ReplayRound(status: map<string, nat>, lsn: nat) returns (r: Call<(bool, map<string, nat>)>)
      requires pg.world.Valid() && pg.world.mon.sync.checkpointLsn == Some(lsn)
      requires Replayed(status, lsn, pg.world.mon.sync.caughtUp)
      modifies pg.world`trace, pg.world`mon, pg.world`legal, pg.world`faulty
      ensures pg.world.Valid() && pg.world.legal == old(pg.world.legal)
      ensures (old(pg.world.faulty) ==> pg.world.faulty) && (r.Raised? ==> pg.world.faulty)
      ensures SameButCaughtUp(old(pg.world.mon), pg.world.mon)
      ensures r.Returned? ==>
                && Replayed(r.value.1, lsn, pg.world.mon.sync.caughtUp)
                && replicaConnections.Keys <= r.value.1.Keys
                && (if r.value.0 then replicaConnections.Keys <= pg.world.mon.sync.caughtUp
                    else pg.world.mon.sync.behind != {})
    {
      hide Observe, Allowed;
      var synced := true;
      var seen: map<string, nat> := status;
      var names := replicaConnections.Keys;
      while names != {}
        invariant names <= replicaConnections.Keys
        invariant pg.world.Valid() && pg.world.legal == old(pg.world.legal) && (old(pg.world.faulty) ==> pg.world.faulty)
        invariant SameButCaughtUp(old(pg.world.mon), pg.world.mon)
        invariant Replayed(seen, lsn, pg.world.mon.sync.caughtUp)
        invariant forall n :: n in replicaConnections && n !in names ==> n in seen && (synced ==> seen[n] >= lsn)
        invariant !synced ==> exists n :: n in pg.world.mon.sync.behind && n !in names
      {
        var name :| name in names;
        names := names - {name};
        if !(name in seen && seen[name] != 0 && seen[name] >= lsn) {
          ghost var before := pg.world.mon;
          var replayed :- pg.world.QueryReplayLsn(name);
          if replayed.None? {
            return Raised;   // NULL does not compare
          }
          ReplayedNext(before, name, replayed.value);
          seen := seen[name := replayed.value];
          if replayed.value < lsn {
            synced := false;
          }
        }
      }
      r := Returned((synced, seen));
    }

    method WaitForReplicas(lsn: nat) returns (r: Call<bool>)
      requires pg.world.Valid() && pg.world.mon.sync.checkpointLsn == Some(lsn)
      modifies pg.world`trace, pg.world`mon, pg.world`legal, pg.world`faulty
      ensures pg.world.Valid() && pg.world.legal == old(pg.world.legal)
      ensures (old(pg.world.faulty) ==> pg.world.faulty) && (r != Returned(true) ==> pg.world.faulty)
      ensures SameButCaughtUp(old(pg.world.mon), pg.world.mon)
      ensures r == Returned(true) ==> replicaConnections.Keys <= pg.world.mon.sync.caughtUp
    {
      hide Allowed, Observe;
      var status: map<string, nat> := map[];
      var rounds := AnyCount();
      for i := 0 to rounds + 1
        invariant pg.world.Valid() && pg.world.legal == old(pg.world.legal) && (old(pg.world.faulty) ==> pg.world.faulty)
        invariant SameButCaughtUp(old(pg.world.mon), pg.world.mon)
        invariant Replayed(status, lsn, pg.world.mon.sync.caughtUp)
        invariant i > 0 ==> pg.world.mon.sync.behind != {}
      {
        var round :- ReplayRound(status, lsn);
        if round.0 {
          return Returned(true);
        }
        status := round.1;
      }
      pg.world.TimeOut(ReplayLoop);
      r := Returned(false);
    }

    method StartRsyncd() returns (r: Call<()>)
      requires pg.world.Valid() && rsyncdStarted == !pg.world.mon.sync.rsyncd.Absent?
      modifies `rsyncdConfigsCreated, `rsyncdStarted, pg.world`trace, pg.world`mon, pg.world`legal, pg.world`faulty
      ensures pg.world.Valid() && rsyncdStarted == !pg.world.mon.sync.rsyncd.Absent?
      ensures (old(pg.world.faulty) ==> pg.world.faulty) && (r.Raised? ==> pg.world.faulty)
      ensures old(pg.world.legal) && old(pg.world.mon.sync.checkpointLsn).Some? ==> pg.world.legal
      ensures SameButRsyncd(old(pg.world.mon), pg.world.mon)
      ensures r.Returned? ==> rsyncdStarted && pg.world.mon.sync.rsyncd.Running?
    {
      rsyncdConfigsCreated := true;
      var _ :- pg.world.Do(WriteRsyncd);
      var _ :- pg.world.StartRsyncd();
      rsyncdStarted := true;
      r := Returned(());
    }

    /** stop_rsyncd: keeps the configs when the kill fails. */
    method StopRsyncd()
      requires pg.world.Valid() && rsyncdStarted == !pg.world.mon.sync.rsyncd.Absent?
      modifies `rsyncdConfigsCreated, `rsyncdStarted, pg.world`trace, pg.world`mon, pg.world`legal, pg.world`faulty
      ensures pg.world.Valid() && rsyncdStarted == !pg.world.mon.sync.rsyncd.Absent?
      ensures pg.world.legal == old(pg.world.legal) && (old(pg.world.faulty) ==> pg.world.faulty)
      ensures SameButRsyncd(old(pg.world.mon), pg.world.mon)
      ensures pg.world.mon.sync.rsyncd.Absent? || pg.world.mon.sync.rsyncd.Stuck?
      ensures rsyncdStarted || rsyncdConfigsCreated ==> pg.world.faulty
      ensures !old(rsyncdStarted || rsyncdConfigsCreated) ==>
                pg.world.trace == old(pg.world.trace) && pg.world.mon == old(pg.world.mon)
    {
      if rsyncdStarted {
        var killed := pg.world.KillRsyncd();
        if killed.Raised? {
          return;
        }
        rsyncdStarted := false;
      }
      if rsyncdConfigsCreated {
        var removed := pg.world.Do(RemoveRsyncd);
        if removed.Returned? {
          rsyncdConfigsCreated := false;
        }
      }
    }

    /** pg_controldata must be the one of the old version, so the binaries are
        switched there and back. */
    method ReadCheckpoint() returns (r: Call<Option<nat>>)
      requires pg.world.Valid()
      modifies pg`binDir, pg`oldBinDir, pg.world`trace, pg.world`mon, pg.world`legal, pg.world`faulty
      ensures pg.world.Valid() && (old(pg.world.faulty) ==> pg.world.faulty)
      ensures old(pg.world.legal) && old(pg.world.mon.id.clusterBin) == GetBinDir(clusterVersion.text) ==> pg.world.legal
      ensures pg.world.mon == old(pg.world.mon).(sync := pg.world.mon.sync)
      ensures pg.world.mon.sync == old(pg.world.mon.sync)
                                   .(checkpointLsn := pg.world.mon.sync.checkpointLsn, caughtUp := pg.world.mon.sync.caughtUp,
                                     behind := pg.world.mon.sync.behind)
      ensures r.Raised? || r.value.None? ==> pg.world.faulty
      ensures r.Returned? ==> pg.oldBinDir == Some(GetBinDir(clusterVersion.text)) && pg.binDir == GetBinDir(desiredVersion.text)
      ensures r.Returned? && r.value.Some? && old(pg.world.mon.server.stopped) ==> pg.world.mon.sync.checkpointLsn == r.value
    {
      hide GetBinDir;
      pg.SetBinDir(clusterVersion);
      var data :- pg.world.ReadControlData(pg.binDir);
      pg.SetBinDir(desiredVersion);
      if data.0 != Some("shut down") || data.1.None? {
        return Returned(None);
      }
      r := Returned(data.1);
    }

    /** With replicas: the shutdown checkpoint, rsyncd, and all replicas there. */
    method CatchUpReplicas() returns (r: Call<bool>)
      requires pg.world.Valid() && rsyncdStarted == !pg.world.mon.sync.rsyncd.Absent? && pg.world.mon.server.stopped
      modifies `rsyncdConfigsCreated, `rsyncdStarted, pg`binDir, pg`oldBinDir
      modifies pg.world`trace, pg.world`mon, pg.world`legal, pg.world`faulty
      ensures pg.world.Valid() && rsyncdStarted == !pg.world.mon.sync.rsyncd.Absent?
      ensures (old(pg.world.faulty) ==> pg.world.faulty) && (r != Returned(true) ==> pg.world.faulty)
      ensures old(pg.world.legal) && old(pg.world.mon.id.clusterBin) == GetBinDir(clusterVersion.text) ==> pg.world.legal
      ensures SameButFollowing(old(pg.world.mon), pg.world.mon)
      ensures r == Returned(true) ==>
                && pg.oldBinDir == Some(GetBinDir(clusterVersion.text)) && pg.binDir == GetBinDir(desiredVersion.text)
                && pg.world.mon.sync.checkpointLsn.Some?
                && replicaConnections.Keys <= pg.world.mon.sync.caughtUp
                && pg.world.mon.sync.rsyncd.Alive?
    {
      hide Allowed, GetBinDir, World.Valid;
      var lsn :- ReadCheckpoint();
      if lsn.None? {
        return Returned(false);
      }
      var _ :- StartRsyncd();
      r := WaitAndPoll(lsn.value);
    }

    method WaitAndPoll(lsn: nat) returns (r: Call<bool>)
      requires pg.world.Valid() && pg.world.mon.sync.checkpointLsn == Some(lsn) && pg.world.mon.sync.rsyncd.Running?
      modifies pg.world`trace, pg.world`mon, pg.world`legal, pg.world`faulty
      ensures pg.world.Valid() && pg.world.legal == old(pg.world.legal)
      ensures (old(pg.world.faulty) ==> pg.world.faulty) && (r != Returned(true) ==> pg.world.faulty)
      ensures SameButFollowing(old(pg.world.mon), pg.world.mon)
      ensures pg.world.mon.sync.checkpointLsn == Some(lsn) && !pg.world.mon.sync.rsyncd.Absent?
      ensures r == Returned(true) ==> replicaConnections.Keys <= pg.world.mon.sync.caughtUp && pg.world.mon.sync.rsyncd.Alive?
    {
      var ready :- WaitForReplicas(lsn);
      if !ready {
        return Returned(false);
      }
      var alive := pg.world.PollRsyncd();
      r := Returned(alive);
    }

    // ---- Replicas during and after pg_upgrade ------------------------------------------------

    /** The pool that runs CHECKPOINT on every replica, with its results. */
    method RunCheckpoints() returns (results: map<string, bool>)
      requires pg.world.Valid()
      modifies pg.world`trace, pg.world`mon, pg.world`legal, pg.world`faulty
      ensures pg.world.Valid() && pg.world.legal == old(pg.world.legal)
      ensures SameButCheckpointed(old(pg.world.mon), pg.world.mon)
      ensures results.Keys == replicaConnections.Keys
      ensures forall n :: n in results ==> (results[n] <==> n in pg.world.mon.sync.checkpointed)
      ensures (old(pg.world.faulty) ==> pg.world.faulty) && (pg.world.faulty || forall n :: n in results ==> results[n])
    {
      results := map[];
      var names := replicaConnections.Keys;
      while names != {}
        invariant names <= replicaConnections.Keys && results.Keys == replicaConnections.Keys - names
        invariant pg.world.Valid() && pg.world.legal == old(pg.world.legal)
        invariant SameButCheckpointed(old(pg.world.mon), pg.world.mon)
        invariant forall n :: n in results ==> (results[n] <==> n in pg.world.mon.sync.checkpointed)
        invariant (old(pg.world.faulty) ==> pg.world.faulty) && (pg.world.faulty || forall n :: n in results ==> results[n])
      {
        var name :| name in names;
        names := names - {name};
        var ok := pg.world.RunCheckpoint(name);
        results := results[name := ok];
      }
    }

    /** The connections of replicas whose CHECKPOINT failed are dropped. */
    method DropFailed(results: map<string, bool>) returns (ret: bool)
      requires results.Keys == replicaConnections.Keys
      modifies `replicaConnections
      ensures ret <==> forall n :: n in results ==> results[n]
      ensures replicaConnections.Keys == set n | n in results && results[n]
      ensures forall n :: n in replicaConnections ==> replicaConnections[n] == old(replicaConnections)[n]
    {
      ret := true;
      var names := results.Keys;
      while names != {}
        invariant names <= results.Keys
        invariant ret <==> forall n :: n in results && n !in names ==> results[n]
        invariant replicaConnections.Keys == set n | n in results && (n in names || results[n])
        invariant forall n :: n in replicaConnections ==> n in old(replicaConnections) && replicaConnections[n] == old(replicaConnections)[n]
      {
        var name :| name in names;
        names := names - {name};
        if !results[name] {
          ret := false;
          replicaConnections := replicaConnections - {name};
        }
      }
    }

    /** The first half of rsync_replicas: start rsync on every replica, and drop
        the connections where that fails. */
    method NotifyReplicas(primary: Option<string>) returns (ret: bool)
      requires pg.world.Valid() && pg.world.mon.sync.notified == {}
      modifies `replicaConnections, pg.world`trace, pg.world`mon, pg.world`legal, pg.world`faulty
      ensures pg.world.Valid() && (old(pg.world.faulty) ==> pg.world.faulty)
      ensures old(pg.world.legal && MayNotify(pg.world.mon, replicaConnections.Keys, desiredVersion.text, primary)) ==> pg.world.legal
      ensures pg.world.mon == old(pg.world.mon).(sync := old(pg.world.mon).sync.(notified := replicaConnections.Keys))
      ensures replicaConnections.Keys <= old(replicaConnections.Keys)
      ensures ret <==> replicaConnections.Keys == old(replicaConnections.Keys)
      ensures !ret ==> pg.world.faulty
    {
      hide Observe, Allowed, Succeeded;
      var failed: set<string> := {};
      var names := replicaConnections.Keys;
      while names != {}
        invariant replicaConnections == old(replicaConnections)
        invariant names <= replicaConnections.Keys && failed <= replicaConnections.Keys - names
        invariant pg.world.Valid() && (old(pg.world.faulty) ==> pg.world.faulty)
        invariant old(pg.world.legal && MayNotify(pg.world.mon, replicaConnections.Keys, desiredVersion.text, primary)) ==> pg.world.legal
        invariant pg.world.mon == old(pg.world.mon).(sync := old(pg.world.mon).sync
                                                    .(notified := replicaConnections.Keys - names - failed))
        invariant failed != {} ==> pg.world.faulty
      {
        var name :| name in names;
        ghost var before := replicaConnections.Keys - names - failed;
        names := names - {name};
        NotifiedNext(pg.world.mon, name, desiredVersion.text, primary);
        var started := pg.world.RunCopyToProgram(name, desiredVersion.text, primary);
        if started.Raised? {
          failed := failed + {name};
        }
        assert Mark(before, name, started.Returned?) == replicaConnections.Keys - names - failed;
      }
      ret := failed == {};
      assert (replicaConnections - failed).Keys == replicaConnections.Keys - failed;
      replicaConnections := replicaConnections - failed;
    }

    /** One poll of the feedback files; `status` keeps what was read. */
    method FeedbackRound(status: map<string, string>) returns (r: Call<map<string, string>>)
      requires pg.world.Valid() && replicaConnections.Keys <= pg.world.mon.sync.notified && !pg.world.mon.server.killed
      requires FeedbackSeen(status, replicaConnections.Keys, pg.world.mon.sync.rsyncOk)
      modifies pg.world`trace, pg.world`mon, pg.world`legal, pg.world`faulty
      ensures pg.world.Valid() && pg.world.legal == old(pg.world.legal)
      ensures (old(pg.world.faulty) ==> pg.world.faulty) && (r.Raised? ==> pg.world.faulty)
      ensures SameButRsyncOk(old(pg.world.mon), pg.world.mon)
      ensures r.Returned? ==> FeedbackSeen(r.value, replicaConnections.Keys, pg.world.mon.sync.rsyncOk)
      ensures r.Returned? ==> forall n :: n in replicaConnections && n !in r.value ==> n in pg.world.mon.sync.silent
      ensures r.Raised? ==> !(replicaConnections.Keys <= pg.world.mon.sync.rsyncOk)
      ensures pg.world.mon.sync.rsyncOk <= replicaConnections.Keys
      ensures r.Returned? ==> pg.world.faulty || AllSucceeded(status) ==> pg.world.faulty || AllSucceeded(r.value)
    {
      hide Observe, Allowed;
      var seen := status;
      var names := replicaConnections.Keys;
      while names != {}
        invariant names <= replicaConnections.Keys
        invariant pg.world.Valid() && pg.world.legal == old(pg.world.legal) && (old(pg.world.faulty) ==> pg.world.faulty)
        invariant SameButRsyncOk(old(pg.world.mon), pg.world.mon)
        invariant FeedbackSeen(seen, replicaConnections.Keys, pg.world.mon.sync.rsyncOk)
        invariant forall n :: n in replicaConnections && n !in names && n !in seen ==> n in pg.world.mon.sync.silent
        invariant pg.world.faulty || AllSucceeded(status) ==> pg.world.faulty || AllSucceeded(seen)
      {
        var name :| name in names;
        names := names - {name};
        if name !in seen {
          ReportNext(pg.world.mon, name);
          var feedback :- pg.world.ReadFeedback(name);
          if feedback.Some? {
            seen := seen[name := feedback.value];
          }
        }
      }
      r := Returned(seen);
    }

    /** The second half of rsync_replicas: true when every replica that was
        notified reported a status that starts with 0. */
    method AwaitFeedback() returns (r: Call<bool>)
      requires pg.world.Valid() && replicaConnections.Keys <= pg.world.mon.sync.notified && pg.world.mon.sync.rsyncOk == {}
      requires !pg.world.mon.server.killed
      modifies pg.world`trace, pg.world`mon, pg.world`legal, pg.world`faulty
      ensures pg.world.Valid() && pg.world.legal == old(pg.world.legal)
      ensures (old(pg.world.faulty) ==> pg.world.faulty) && (r != Returned(true) ==> pg.world.faulty)
      ensures SameButRsyncOk(old(pg.world.mon), pg.world.mon)
      ensures pg.world.mon.sync.rsyncOk <= replicaConnections.Keys
      ensures r == Returned(true) <==> replicaConnections.Keys <= pg.world.mon.sync.rsyncOk
    {
      hide Allowed, Observe;
      var status: map<string, string> := map[];
      var rounds := AnyCount();
      for i := 0 to rounds + 1
        invariant pg.world.Valid() && pg.world.legal == old(pg.world.legal) && (old(pg.world.faulty) ==> pg.world.faulty)
        invariant SameButRsyncOk(old(pg.world.mon), pg.world.mon)
        invariant FeedbackSeen(status, replicaConnections.Keys, pg.world.mon.sync.rsyncOk)
        invariant i > 0 ==> forall n :: n in replicaConnections && n !in status ==> n in pg.world.mon.sync.silent
        invariant pg.world.faulty || AllSucceeded(status)
      {
        var read :- FeedbackRound(status);
        status := read;
        if replicaConnections.Keys <= status.Keys {
          break;
        }
      }
      if !(replicaConnections.Keys <= status.Keys) {
        pg.world.TimeOut(FeedbackLoop);
      }
      r := Returned(forall n :: n in replicaConnections.Keys ==> n in status && Succeeded(status[n]));
    }

    method RsyncReplicas(primary: Option<string>) returns (r: Call<bool>)
      requires pg.world.Valid() && pg.world.mon.sync.notified == {} && pg.world.mon.sync.rsyncOk == {}
      requires !pg.world.mon.server.killed
      modifies `replicaConnections, pg.world`trace, pg.world`mon, pg.world`legal, pg.world`faulty
      ensures pg.world.Valid()
      ensures (old(pg.world.faulty) ==> pg.world.faulty) && (r != Returned(true) ==> pg.world.faulty)
      ensures old(pg.world.legal && MayNotify(pg.world.mon, replicaConnections.Keys, desiredVersion.text, primary)) ==> pg.world.legal
      ensures SameButFeedback(old(pg.world.mon), pg.world.mon)
      ensures replicaConnections.Keys <= old(replicaConnections.Keys)
      ensures r == Returned(true) <==> old(replicaConnections.Keys) <= pg.world.mon.sync.rsyncOk
    {
      hide Allowed, Observe;
      var notified := NotifyReplicas(primary);
      var reported :- AwaitFeedback();
      r := Returned(notified && reported);
    }

    // ---- The phases of do_upgrade ---------------------------------------------------------------

    /** The monitor knows us: a primary with these binaries. */
    ghost predicate Identified()
      reads pg.world`mon
    {
      pg.world.mon.id
      == Identity(Primary, pg.name, GetBinDir(clusterVersion.text), GetBinDir(desiredVersion.text), desiredVersion.text)
    }

    /** The object pg after prepare_new_pgdata. */
    ghost predicate PgReady()
      reads pg
    {
      && pg.AtHome()
      && pg.newDataDir == Some(NewDir(pg.dataDir)) && pg.oldDataDir == Some(OldDir(pg.dataDir))
      && pg.oldBinDir == Some(GetBinDir(clusterVersion.text)) && pg.binDir == GetBinDir(desiredVersion.text)
    }

    /** prepare_new_pgdata, the extensions to drop, and pg_upgrade --check. */
    method PrepareAndCheck() returns (r: Call<bool>)
      requires ReplicasFit(pg.world.mon) && pg.world.mon.Did(CheckPrimary)
      requires pg.world.Valid() && Identified() && pg.binDir == GetBinDir(clusterVersion.text)
      requires pg.fs.Valid() && pg.AtHome() && pg.dataDir in pg.fs.dirs && pg.fs.dirs[pg.dataDir] == Old
      requires pg.oldConfigValues.None?
      modifies pg, pg.fs, pg.world`trace, pg.world`mon, pg.world`legal, pg.world`faulty
      ensures pg.world.Valid() && pg.fs.Valid() && old(pg.fs.log) <= pg.fs.log
      ensures (old(pg.world.faulty) ==> pg.world.faulty) && (old(pg.fs.faulty) ==> pg.fs.faulty)
      ensures old(pg.world.legal) ==> pg.world.legal
      ensures old(pg.fs.kept) ==> pg.fs.kept
      ensures SameButCheck(old(pg.world.mon), pg.world.mon)
      ensures r == Returned(true) ==>
                && PgReady() && pg.world.mon.server.checkOk
                && pg.parameters == old(pg.parameters)
                && pg.fs.dirs == old(pg.fs.dirs)[NewDir(pg.dataDir) := Fresh]
      ensures r != Returned(true) ==> pg.world.faulty || pg.fs.faulty
    {
      hide KeepsData, FileSystem.Valid, World.Valid, PreparedParameters, PreparedPreload, GetBinDir;
      LiveParametersUnchanged(pg.parameters, pg.table, desiredVersion);
      var prepared :- pg.PrepareNewPgdata(desiredVersion);
      if !prepared {
        return Returned(false);
      }
      var dropped := pg.world.Do(DropExtensions);
      if dropped.Raised? {
        return Returned(false);
      }
      r := pg.PgUpgrade(true);
    }

    /** Everything before the downtime. */
    method PrepareAndPause() returns (r: Call<bool>)
      requires ReplicasFit(pg.world.mon) && pg.world.mon.Did(CheckPrimary)
      requires pg.world.Valid() && Identified() && pg.binDir == GetBinDir(clusterVersion.text)
      requires pg.fs.Valid() && pg.AtHome() && pg.dataDir in pg.fs.dirs && pg.fs.dirs[pg.dataDir] == Old
      requires pg.oldConfigValues.None?
      requires paused == pg.world.mon.pause.owned && pg.world.mon.pause.writes == 0 && !IsPaused(pg.world.config)
      requires !pg.world.mon.server.stopped
      modifies `paused, pg, pg.fs, pg.world
      ensures pg.world.Valid() && pg.fs.Valid() && old(pg.fs.log) <= pg.fs.log
      ensures (old(pg.world.faulty) ==> pg.world.faulty) && (old(pg.fs.faulty) ==> pg.fs.faulty)
      ensures old(pg.world.legal) ==> pg.world.legal
      ensures old(pg.fs.kept) ==> pg.fs.kept
      ensures paused == pg.world.mon.pause.owned
      ensures SameButPreparation(old(pg.world.mon), pg.world.mon)
      ensures r == Returned(true) ==>
                && PgReady() && pg.world.mon.server.checkOk && pg.world.mon.pause.acked && pg.world.mon.Did(DropObjects)
                && paused
                && pg.parameters == old(pg.parameters)
                && pg.fs.dirs == old(pg.fs.dirs)[NewDir(pg.dataDir) := Fresh]
      ensures r != Returned(true) ==> pg.world.faulty || pg.fs.faulty
    {
      hide KeepsData, FileSystem.Valid, Observe, Allowed, GetBinDir;
      var checked :- PrepareAndCheck();
      if !checked {
        return Returned(false);
      }
      var dropped := pg.world.Do(DropObjects);
      if dropped.Raised? {
        return Returned(false);
      }
      r := TogglePause(true);
    }

    /** The clean shutdown, and the replicas' way to its checkpoint. */
    method ShutDown() returns (r: Call<bool>)
      requires pg.world.Valid() && rsyncdStarted == !pg.world.mon.sync.rsyncd.Absent?
      requires Identified() && pg.world.mon.server.checkOk && pg.world.mon.pause.acked && PgReady()
      modifies `rsyncdConfigsCreated, `rsyncdStarted, pg`binDir, pg`oldBinDir
      modifies pg.world`trace, pg.world`mon, pg.world`legal, pg.world`faulty
      ensures pg.world.Valid() && rsyncdStarted == !pg.world.mon.sync.rsyncd.Absent?
      ensures (old(pg.world.faulty) ==> pg.world.faulty) && (r != Returned(true) ==> pg.world.faulty)
      ensures old(pg.world.legal) ==> pg.world.legal
      ensures SameButShutdown(old(pg.world.mon), pg.world.mon)
      ensures r == Returned(true) ==>
                && PgReady() && pg.world.mon.server.stopped
                && (replicaConnections != map[] ==>
                      && pg.world.mon.sync.checkpointLsn.Some?
                      && replicaConnections.Keys <= pg.world.mon.sync.caughtUp
                      && pg.world.mon.sync.rsyncd.Alive?)
    {
      hide World.Valid, GetBinDir;
      var stopped :- pg.world.StopPostgres();
      if !stopped {
        return Returned(false);
      }
      if replicaConnections != map[] {
        r := CatchUpReplicas();
      } else {
        r := Returned(true);
      }
    }

    /** CHECKPOINT on the replicas, the real pg_upgrade, and the new directory. */
    method UpgradeAndSwitch() returns (r: Call<bool>, results: map<string, bool>)
      requires pg.world.Valid() && pg.fs.Valid() && Identified() && PgReady()
      requires pg.world.mon.server.stopped && replicaConnections.Keys == pg.world.mon.Replicas() && ReplicasReady(pg.world.mon)
      requires pg.world.mon.Did(DropObjects) && Upgradable(pg.fs.dirs, pg.dataDir, NewDir(pg.dataDir))
      modifies `upgradeComplete, pg`oldDataDir, pg.fs
      modifies pg.world`trace, pg.world`mon, pg.world`legal, pg.world`faulty
      ensures pg.world.Valid() && pg.fs.Valid() && old(pg.fs.log) <= pg.fs.log
      ensures (old(pg.world.faulty) ==> pg.world.faulty) && (old(pg.fs.faulty) ==> pg.fs.faulty)
      ensures old(pg.world.legal) ==> pg.world.legal
      ensures old(pg.fs.kept) ==> pg.fs.kept
      ensures SameButUpgrade(old(pg.world.mon), pg.world.mon)
      ensures r == Returned(true) ==>
                && upgradeComplete && pg.world.mon.server.switched && pg.world.mon.Did(UpdateConfigs)
                && results.Keys == replicaConnections.Keys
                && (forall n :: n in results ==> (results[n] <==> n in pg.world.mon.sync.checkpointed))
                && pg.oldDataDir == Some(OldDir(pg.dataDir))
                && NewDir(pg.dataDir) !in pg.fs.dirs
                && pg.dataDir in pg.fs.dirs && pg.fs.dirs[pg.dataDir] == Upgraded
                && pg.fs.dirs - {OldDir(pg.dataDir)} == (old(pg.fs.dirs) - {OldDir(pg.dataDir), NewDir(pg.dataDir)})[pg.dataDir := Upgraded]
      ensures r != Returned(true) ==> pg.world.faulty || pg.fs.faulty
      ensures r == Returned(false) ==> upgradeComplete == old(upgradeComplete)
      ensures pg.world.faulty || forall n :: n in results ==> results[n]
    {
      hide KeepsData, FileSystem.Valid, World.Valid, GetBinDir, Allowed, Observe;
      results := CheckpointReplicas();
      r := RunAndSwitch();
    }

    /** The CHECKPOINT of the replicas, if there are any. */
    method CheckpointReplicas() returns (results: map<string, bool>)
      requires pg.world.Valid()
      modifies pg.world`trace, pg.world`mon, pg.world`legal, pg.world`faulty
      ensures pg.world.Valid() && pg.world.legal == old(pg.world.legal)
      ensures SameButCheckpointed(old(pg.world.mon), pg.world.mon)
      ensures results.Keys == replicaConnections.Keys
      ensures forall n :: n in results ==> (results[n] <==> n in pg.world.mon.sync.checkpointed)
      ensures (old(pg.world.faulty) ==> pg.world.faulty) && (pg.world.faulty || forall n :: n in results ==> results[n])
    {
      results := map[];
      if replicaConnections != map[] {
        results := RunCheckpoints();
      }
    }

    /** The real pg_upgrade and the switch after it. */
    method RunAndSwitch() returns (r: Call<bool>)
      requires pg.world.Valid() && pg.fs.Valid() && Identified() && PgReady()
      requires pg.world.mon.server.stopped && ReplicasReady(pg.world.mon) && pg.world.mon.Did(DropObjects)
      requires Upgradable(pg.fs.dirs, pg.dataDir, NewDir(pg.dataDir))
      modifies `upgradeComplete, pg`oldDataDir, pg.fs
      modifies pg.world`trace, pg.world`mon, pg.world`legal, pg.world`faulty
      ensures pg.world.Valid() && pg.fs.Valid() && old(pg.fs.log) <= pg.fs.log
      ensures (old(pg.world.faulty) ==> pg.world.faulty) && (old(pg.fs.faulty) ==> pg.fs.faulty)
      ensures old(pg.world.legal) ==> pg.world.legal
      ensures old(pg.fs.kept) ==> pg.fs.kept
      ensures SameButServer(old(pg.world.mon), pg.world.mon)
      ensures r == Returned(true) ==>
                && upgradeComplete && pg.world.mon.server.switched && pg.world.mon.Did(UpdateConfigs)
                && pg.oldDataDir == Some(OldDir(pg.dataDir))
                && pg.fs.dirs == Switched(Linking(old(pg.fs.dirs), pg.dataDir, NewDir(pg.dataDir), Upgraded), pg.dataDir, Some(NewDir(pg.dataDir)))
      ensures r != Returned(true) ==> pg.world.faulty || pg.fs.faulty
      ensures r == Returned(false) ==> upgradeComplete == old(upgradeComplete)
    {
      hide KeepsData, FileSystem.Valid, World.Valid, GetBinDir, Allowed, Observe, Switched;
      ghost var before := pg.world.mon;
      ReadyToUpgrade(before);
      var upgraded :- pg.PgUpgrade(false);
      if !upgraded {
        return Returned(false);
      }
      UpgradeThenSwitch(before, pg.world.mon, pg.oldBinDir.value, pg.binDir);
      r := SwitchAndConfigure();
    }

    /** switch_pgdata, upgrade_complete and update_configs. */
    method SwitchAndConfigure() returns (r: Call<bool>)
      requires pg.world.Valid() && pg.fs.Valid() && PgReady()
      requires Holds(pg.fs.dirs, pg.dataDir) && NewDir(pg.dataDir) in pg.fs.dirs
      modifies `upgradeComplete, pg`oldDataDir, pg.fs
      modifies pg.world`trace, pg.world`mon, pg.world`legal, pg.world`faulty
      ensures pg.world.Valid() && pg.fs.Valid() && old(pg.fs.log) <= pg.fs.log
      ensures (old(pg.world.faulty) ==> pg.world.faulty) && (old(pg.fs.faulty) ==> pg.fs.faulty)
      ensures SwitchedSince(old(pg.world.mon), pg.world.mon)
      ensures pg.world.legal == (old(pg.world.legal) && Allowed(old(pg.world.mon), SwitchDirs))
      ensures old(pg.fs.kept) ==> pg.fs.kept
      ensures r != Returned(false)
      ensures r == Returned(true) ==>
                && upgradeComplete && pg.oldDataDir == Some(OldDir(pg.dataDir)) && pg.world.mon.Did(UpdateConfigs)
                && pg.fs.dirs == Switched(old(pg.fs.dirs), pg.dataDir, Some(NewDir(pg.dataDir)))
      ensures r != Returned(true) ==> pg.world.faulty || pg.fs.faulty
    {
      hide KeepsData, FileSystem.Valid, World.Valid, Allowed, GetBinDir, Switched;
      var _ :- pg.SwitchPgdata();
      upgradeComplete := true;
      var _ :- pg.world.Do(UpdateConfigs);
      r := Returned(true);
    }

    /** The result of the replicas: drop those without CHECKPOINT, rsync the rest
        and stop rsyncd. True exactly when every one did all of it. */
    method SyncReplicas(results: map<string, bool>, cluster: Cluster) returns (ret: bool)
      requires pg.world.Valid() && rsyncdStarted == !pg.world.mon.sync.rsyncd.Absent?
      requires replicaConnections.Keys == results.Keys == pg.world.mon.Replicas()
      requires forall n :: n in results ==> (results[n] <==> n in pg.world.mon.sync.checkpointed)
      requires pg.world.mon.sync.notified == {} && pg.world.mon.sync.rsyncOk == {}
      requires pg.world.mon.server.switched && ReplicasReady(pg.world.mon) && pg.world.mon.Did(UpdateConfigs)
      requires pg.world.mon.dcs.first == Some(cluster) && !pg.world.mon.server.killed
      requires pg.world.mon.id.me == pg.name && pg.world.mon.id.desired == desiredVersion.text
      modifies `replicaConnections, `rsyncdConfigsCreated, `rsyncdStarted
      modifies pg.world`trace, pg.world`mon, pg.world`legal, pg.world`faulty
      ensures pg.world.Valid() && rsyncdStarted == !pg.world.mon.sync.rsyncd.Absent?
      ensures (old(pg.world.faulty) ==> pg.world.faulty)
      ensures old(pg.world.legal) ==> pg.world.legal
      ensures SameButSync(old(pg.world.mon), pg.world.mon)
      ensures pg.world.mon.sync.rsyncd.Absent? || pg.world.mon.sync.rsyncd.Stuck? || pg.world.mon.sync.notified == {}
      ensures replicaConnections.Keys <= old(replicaConnections.Keys)
      ensures ret <==> pg.world.mon.Replicas() <= pg.world.mon.sync.checkpointed && pg.world.mon.Replicas() <= pg.world.mon.sync.rsyncOk
      ensures !ret ==> pg.world.faulty || exists n :: n in results && !results[n]
    {
      hide Allowed, Observe, World.Valid;
      ret := DropFailed(results);
      assert ret <==> results.Keys <= pg.world.mon.sync.checkpointed;
      assert ret ==> replicaConnections.Keys == results.Keys;
      assert replicaConnections == map[] && ret ==> results.Keys == {};
      if replicaConnections != map[] {
        var synced := RsyncReplicas(HostOf(cluster, pg.name));   // whatever it raises is caught
        if synced != Returned(true) {
          ret := false;
        }
        StopRsyncd();
      }
    }

    // ---- After the switch --------------------------------------------------------------------------

    /** remove_initialize_key: gives up quietly, but the DCS may raise. */
    method RemoveInitializeKey() returns (r: Call<()>)
      requires pg.world.Valid()
      modifies pg.world
      ensures pg.world.Valid() && pg.world.legal == old(pg.world.legal)
      ensures (old(pg.world.faulty) ==> pg.world.faulty) && (r.Raised? ==> pg.world.faulty)
      ensures SameButDcs(old(pg.world.mon), pg.world.mon)
      ensures r.Returned? ==> KeyHandled(pg.world.mon)
      ensures r.Returned? ==>
                || pg.world.faulty || pg.world.mon.dcs.lastRead.value.initialize.None?
                || (pg.world.trace != [] && pg.world.trace[|pg.world.trace| - 1] == Ran(CancelInitialization, true))
    {
      hide Allowed;
      var rounds := AnyCount();
      for i := 0 to rounds + 1
        invariant pg.world.Valid() && pg.world.legal == old(pg.world.legal) && (old(pg.world.faulty) ==> pg.world.faulty)
        invariant SameButDcs(old(pg.world.mon), pg.world.mon)
        invariant i > 0 ==> MayTimeOut(pg.world.mon, KeyLoop)
      {
        var cluster :- pg.world.GetCluster();
        if cluster.initialize.None? {
          return Returned(());
        }
        var cancelled :- pg.world.Ask(CancelInitialization);
        if cancelled {
          return Returned(());
        }
      }
      pg.world.TimeOut(KeyLoop);
      r := Returned(());
    }

    /** Some rounds of asking the member's API, ended by a good answer. */
    method AwaitApi(name: string)
      requires pg.world.Valid() && name == pg.world.mon.id.me
      modifies pg.world`trace, pg.world`mon, pg.world`legal, pg.world`faulty
      ensures pg.world.Valid() && pg.world.legal == old(pg.world.legal) && (old(pg.world.faulty) ==> pg.world.faulty)
      ensures SameButHealthOf(old(pg.world.mon), pg.world.mon, name)
    {
      var rounds := AnyCount();
      for i := 0 to rounds + 1
        invariant pg.world.Valid() && pg.world.legal == old(pg.world.legal) && (old(pg.world.faulty) ==> pg.world.faulty)
        invariant SameButHealthOf(old(pg.world.mon), pg.world.mon, name)
        invariant i > 0 ==> name !in pg.world.mon.health.healthy
      {
        var healthy := pg.world.CheckApi(name);
        if healthy {
          return;
        }
      }
      pg.world.TimeOut(ApiLoop);
    }

    /** The initialize key goes and Patroni restarts, then postgres. The cluster
        is read again for the last attempt at the key. */
    method RestartPatroni(oldSysid: Option<string>) returns (r: Call<Cluster>)
      requires pg.world.Valid() && pg.world.mon.id.me == pg.name && pg.world.mon.id.role.Primary?
      requires pg.world.mon.server.switched && pg.world.mon.Did(UpdateConfigs)
      requires pg.world.mon.sync.rsyncd.Absent? || pg.world.mon.sync.rsyncd.Stuck? || pg.world.mon.sync.notified == {}
      modifies pg.world
      ensures pg.world.Valid() && pg.world.legal == old(pg.world.legal)
      ensures (old(pg.world.faulty) ==> pg.world.faulty) && (r.Raised? ==> pg.world.faulty)
      ensures SameButFinish(old(pg.world.mon), pg.world.mon, pg.name)
      ensures r.Returned? ==>
                pg.world.mon.server.killed && pg.world.mon.Did(KillPatroni) && pg.world.mon.Tried(RestartPostgres)
      ensures r.Returned? && old(pg.world.mon).dcs.first.Some? ==>
                pg.world.faulty || Names(r.value) == Names(old(pg.world.mon).dcs.first.value)
    {
      hide World.Valid, Observe, Allowed, KeyHandled;
      var _ :- RemoveInitializeKey();
      var _ :- pg.world.KillPatroni();
      var _ :- RemoveInitializeKey();
      r := RestartServer(oldSysid);
    }

    method RestartServer(oldSysid: Option<string>) returns (r: Call<Cluster>)
      requires pg.world.Valid() && pg.world.mon.id.me == pg.name
      requires pg.world.mon.Did(KillPatroni) && KeyHandled(pg.world.mon)
      modifies pg.world
      ensures pg.world.Valid() && pg.world.legal == old(pg.world.legal)
      ensures (old(pg.world.faulty) ==> pg.world.faulty) && (r.Raised? ==> pg.world.faulty)
      ensures SameButFinish(old(pg.world.mon), pg.world.mon, pg.name) && pg.world.mon.server == old(pg.world.mon.server)
      ensures r.Returned? ==> pg.world.mon.Tried(RestartPostgres)
      ensures r.Returned? && old(pg.world.mon).dcs.first.Some? ==>
                pg.world.faulty || Names(r.value) == Names(old(pg.world.mon).dcs.first.value)
      ensures r.Returned? && r.value.initialize == oldSysid ==> pg.world.mon.Tried(CancelInitialization)
    {
      hide Allowed;
      StartServer();
      var cluster :- pg.world.GetCluster();
      if cluster.initialize == oldSysid {
        var _ :- pg.world.Ask(CancelInitialization);
      }
      r := Returned(cluster);
    }

    /** Patroni is waited for and asked to restart the server; failures are logged. */
    method StartServer()
      requires pg.world.Valid() && pg.world.mon.id.me == pg.name
      requires pg.world.mon.Did(KillPatroni) && KeyHandled(pg.world.mon)
      modifies pg.world`trace, pg.world`mon, pg.world`legal, pg.world`faulty
      ensures pg.world.Valid() && pg.world.legal == old(pg.world.legal) && (old(pg.world.faulty) ==> pg.world.faulty)
      ensures Further(old(pg.world.mon).(health := pg.world.mon.health), pg.world.mon)
      ensures SameHealthBut(old(pg.world.mon.health), pg.world.mon.health, pg.name) && pg.world.mon.Tried(RestartPostgres)
    {
      AwaitApi(pg.name);
      var _ := pg.world.Ask(RestartPostgres);   // POST /restart, repeated
    }

    /** wait_replicas_restart: a thread pool for no member at all raises. */
    method WaitReplicasRestart(cluster: Cluster) returns (r: Call<()>)
      requires pg.world.Valid() && pg.world.mon.Tried(Analyze) && pg.world.mon.pause.owned
      modifies pg.world`trace, pg.world`mon, pg.world`legal, pg.world`faulty
      ensures pg.world.Valid() && Further(old(pg.world.mon), pg.world.mon) && pg.world.legal == old(pg.world.legal)
      ensures (old(pg.world.faulty) ==> pg.world.faulty) && old(pg.world.trace) <= pg.world.trace
      ensures r.Raised? <==> forall m :: m in cluster.members ==> m.name !in replicaConnections
      ensures r.Returned? ==> pg.world.mon.Tried(AwaitReplicas)
    {
      if forall m :: m in cluster.members ==> m.name !in replicaConnections {
        return Raised;
      }
      var _ := pg.world.Ask(AwaitReplicas);   // the members that did not restart are logged
      r := Returned(());
    }

    /** The replicas that are still connected are waited for. */
    method WaitForRestarts(cluster: Cluster) returns (r: Call<()>)
      requires pg.world.Valid() && (pg.world.faulty || replicaConnections.Keys <= Names(cluster))
      requires pg.world.mon.Tried(Analyze) && pg.world.mon.pause.owned
      modifies pg.world`trace, pg.world`mon, pg.world`legal, pg.world`faulty
      ensures pg.world.Valid() && Further(old(pg.world.mon), pg.world.mon) && pg.world.legal == old(pg.world.legal)
      ensures (old(pg.world.faulty) ==> pg.world.faulty) && (r.Raised? ==> pg.world.faulty)
      ensures old(pg.world.trace) <= pg.world.trace
      ensures r.Returned? && replicaConnections != map[] ==> pg.world.mon.Tried(AwaitReplicas)
    {
      hide World.Valid;
      if replicaConnections != map[] {
        if replicaConnections.Keys <= Names(cluster) {
          var n :| n in replicaConnections.Keys;
          assert n in Names(cluster);
        }
        var _ :- WaitReplicasRestart(cluster);
      }
      r := Returned(());
    }

    /** From the extensions to the removal of the old directory. */
    method Complete(cluster: Cluster) returns (r: Call<()>)
      requires pg.world.Valid() && pg.fs.Valid() && paused == pg.world.mon.pause.owned
      requires pg.AtHome() && pg.oldDataDir == Some(OldDir(pg.dataDir)) && Holds(pg.fs.dirs, pg.dataDir)
      requires pg.world.faulty || replicaConnections.Keys <= Names(cluster)
      requires pg.world.mon.id.role.Primary? && pg.world.mon.Tried(RestartPostgres) && paused
      modifies `paused, pg.fs, pg.world
      ensures pg.world.Valid() && pg.fs.Valid() && old(pg.fs.log) <= pg.fs.log
      ensures (old(pg.world.faulty) ==> pg.world.faulty) && (old(pg.fs.faulty) ==> pg.fs.faulty)
      ensures old(pg.world.legal) ==> pg.world.legal
      ensures old(pg.fs.kept) ==> pg.fs.kept
      ensures paused == pg.world.mon.pause.owned
      ensures SameButDcsAndPause(old(pg.world.mon), pg.world.mon)
      ensures r.Returned? ==> pg.fs.dirs == old(pg.fs.dirs) - {OldDir(pg.dataDir)} && Completed(pg.world.mon)
      ensures r.Returned? && replicaConnections != map[] ==> pg.world.mon.Tried(AwaitReplicas)
      ensures r.Returned? && paused ==> TriedToResume(old(pg.world.trace), pg.world.trace)
      ensures r.Raised? ==> pg.world.faulty || pg.fs.faulty
    {
      hide KeepsData, FileSystem.Valid, World.Valid, Observe, Allowed;
      UpdateAndAnalyze();
      var _ :- WaitForRestarts(cluster);
      ResumeCluster();
      ghost var before := pg.world.trace;
      assert paused ==> ResumeFailed(before[|before| - 1]);
      var _ :- FinishServer();
      assert paused ==> pg.world.trace[|before| - 1] == before[|before| - 1];
      r := RemoveOld();
    }

    /** reanalyze and call_post_bootstrap. */
    method FinishServer() returns (r: Call<()>)
      requires pg.world.Valid() && pg.world.mon.id.role.Primary? && pg.world.mon.Tried(Analyze)
      modifies pg.world`trace, pg.world`mon, pg.world`legal, pg.world`faulty
      ensures pg.world.Valid() && Further(old(pg.world.mon), pg.world.mon) && pg.world.legal == old(pg.world.legal)
      ensures (old(pg.world.faulty) ==> pg.world.faulty) && (r.Raised? ==> pg.world.faulty)
      ensures old(pg.world.trace) <= pg.world.trace
      ensures r.Returned? ==> pg.world.mon.Did(Reanalyze) && pg.world.mon.Tried(PostBootstrap)
    {
      hide World.Valid;
      var _ :- pg.world.Do(Reanalyze);
      var _ :- pg.world.Ask(PostBootstrap);   // its answer is ignored
      r := Returned(());
    }

    /** update_extensions, recreate_extensions and the analyze thread; failures are logged. */
    method UpdateAndAnalyze()
      requires pg.world.Valid() && pg.world.mon.id.role.Primary? && pg.world.mon.Tried(RestartPostgres)
      modifies pg.world`trace, pg.world`mon, pg.world`legal, pg.world`faulty
      ensures pg.world.Valid() && Further(old(pg.world.mon), pg.world.mon) && pg.world.legal == old(pg.world.legal)
      ensures (old(pg.world.faulty) ==> pg.world.faulty) && old(pg.world.trace) <= pg.world.trace
      ensures pg.world.mon.Tried(UpdateExtensions) && pg.world.mon.Tried(RecreateExtensions) && pg.world.mon.Tried(Analyze)
    {
      hide World.Valid;
      var _ := pg.world.Do(UpdateExtensions);
      var _ := pg.world.Do(RecreateExtensions);
      var _ := pg.world.Do(Analyze);
    }

    /** cleanup_old_pgdata at the end of the upgrade. */
    method RemoveOld() returns (r: Call<()>)
      requires pg.fs.Valid() && pg.AtHome() && pg.oldDataDir == Some(OldDir(pg.dataDir)) && Holds(pg.fs.dirs, pg.dataDir)
      modifies pg.fs
      ensures pg.fs.Valid() && old(pg.fs.log) <= pg.fs.log && (old(pg.fs.kept) ==> pg.fs.kept)
      ensures pg.fs.faulty == (old(pg.fs.faulty) || r.Raised?)
      ensures r.Returned? ==> pg.fs.dirs == old(pg.fs.dirs) - {OldDir(pg.dataDir)}
    {
      hide KeepsData;
      MayRemoveOld(pg.fs.home, pg.fs.dirs);
      var _ :- pg.CleanupOldPgdata();
      r := Returned(());
    }

    // ---- do_upgrade and try_upgrade ------------------------------------------------------------------

    /** The state do_upgrade starts in: a fresh object for a complete old cluster. */
    ghost predicate Unstarted()
      reads this, pg, pg.fs, pg.world
    {
      && pg.world.Valid() && pg.world.legal && !pg.world.faulty && pg.world.trace == []
      && pg.world.mon == pg.world.start && pg.world.mon.Initial() && Identified()
      && pg.fs.Valid() && pg.fs.kept && pg.AtHome()
      && pg.dataDir in pg.fs.dirs && pg.fs.dirs[pg.dataDir] == Old
      && pg.binDir == GetBinDir(clusterVersion.text) && pg.oldConfigValues.None?
      && !paused && !upgradeComplete && !rsyncdConfigsCreated && !rsyncdStarted
    }

    /** What post_cleanup can rely on, wherever do_upgrade stopped. */
    ghost predicate Tidy()
      reads this, pg.fs, pg.world
    {
      && pg.world.Valid() && pg.world.legal && pg.fs.Valid() && pg.fs.kept
      && paused == pg.world.mon.pause.owned && rsyncdStarted == !pg.world.mon.sync.rsyncd.Absent?
    }

    /** The end of do_upgrade, once the directories are switched. */
    method FinishUpgrade(results: map<string, bool>, cluster: Cluster, oldSysid: Option<string>) returns (r: Call<bool>)
      requires Tidy() && Identified() && pg.world.mon.server.switched && ReplicasReady(pg.world.mon)
      requires pg.world.mon.Did(UpdateConfigs) && !pg.world.mon.server.killed && paused
      requires pg.world.mon.dcs.first == Some(cluster)
      requires replicaConnections.Keys == results.Keys == pg.world.mon.Replicas()
      requires forall n :: n in results ==> (results[n] <==> n in pg.world.mon.sync.checkpointed)
      requires pg.world.mon.sync.notified == {} && pg.world.mon.sync.rsyncOk == {}
      requires pg.AtHome() && pg.oldDataDir == Some(OldDir(pg.dataDir)) && Holds(pg.fs.dirs, pg.dataDir)
      modifies `paused, `replicaConnections, `rsyncdConfigsCreated, `rsyncdStarted, pg.fs, pg.world
      ensures Tidy() && old(pg.fs.log) <= pg.fs.log
      ensures (old(pg.world.faulty) ==> pg.world.faulty) && (old(pg.fs.faulty) ==> pg.fs.faulty)
      ensures SameButEnding(old(pg.world.mon), pg.world.mon, pg.name)
      ensures replicaConnections.Keys <= old(replicaConnections.Keys)
      ensures r.Returned? ==>
                && pg.fs.dirs == old(pg.fs.dirs) - {OldDir(pg.dataDir)} && Finished(pg.world.mon)
                && (r.value <==> Followed(pg.world.mon))
      ensures r != Returned(true) ==> pg.world.faulty || pg.fs.faulty || exists n :: n in results && !results[n]
    {
      hide KeepsData, FileSystem.Valid, World.Valid, Observe, Allowed, GetBinDir;
      var ret := SyncReplicas(results, cluster);
      var again :- RestartPatroni(oldSysid);
      assert OtherNames(pg.world.mon.dcs.first.value, pg.name) <= Names(pg.world.mon.dcs.first.value);
      var _ :- Complete(again);
      r := Returned(ret);
    }

    /** pg_upgrade, the switch and the end. */
    method UpgradeAndFinish(cluster: Cluster, oldSysid: Option<string>) returns (r: Call<bool>)
      requires Tidy() && Identified() && PgReady() && pg.world.mon.dcs.first == Some(cluster)
      requires pg.world.mon.Did(DropObjects) && !pg.world.mon.server.killed && paused
      requires pg.world.mon.server.stopped && replicaConnections.Keys == pg.world.mon.Replicas() && ReplicasReady(pg.world.mon)
      requires pg.world.mon.sync.notified == {} && pg.world.mon.sync.rsyncOk == {}
      requires Upgradable(pg.fs.dirs, pg.dataDir, NewDir(pg.dataDir))
      modifies `paused, `upgradeComplete, `replicaConnections, `rsyncdConfigsCreated, `rsyncdStarted
      modifies pg`oldDataDir, pg.fs, pg.world
      ensures Tidy() && old(pg.fs.log) <= pg.fs.log
      ensures (old(pg.world.faulty) ==> pg.world.faulty) && (old(pg.fs.faulty) ==> pg.fs.faulty)
      ensures SameButOutcome(old(pg.world.mon), pg.world.mon, pg.name)
      ensures replicaConnections.Keys <= old(replicaConnections.Keys)
      ensures r.Returned? && upgradeComplete && !old(upgradeComplete) ==>
                && pg.fs.dirs == (old(pg.fs.dirs) - {OldDir(pg.dataDir), NewDir(pg.dataDir)})[pg.dataDir := Upgraded]
                && Finished(pg.world.mon) && (r.value <==> Followed(pg.world.mon))
      ensures r == Returned(true) ==> upgradeComplete
      ensures r != Returned(true) ==> pg.world.faulty || pg.fs.faulty
    {
      hide KeepsData, FileSystem.Valid, World.Valid, Observe, Allowed, GetBinDir;
      var switched, results := UpgradeAndSwitch();
      if switched.Raised? {
        return Raised;
      }
      if !switched.value {
        return Returned(false);
      }
      r := FinishUpgrade(results, cluster, oldSysid);
    }

    /** The shutdown and everything after it. */
    method DoDowntime(cluster: Cluster, oldSysid: Option<string>) returns (r: Call<bool>)
      requires Tidy() && Identified() && PgReady() && pg.world.mon.dcs.first == Some(cluster)
      requires pg.world.mon.Did(DropObjects) && !pg.world.mon.server.killed && paused
      requires pg.world.mon.server.checkOk && pg.world.mon.pause.acked
      requires replicaConnections.Keys == pg.world.mon.Replicas()
      requires pg.world.mon.sync == NO_SYNC
      requires Upgradable(pg.fs.dirs, pg.dataDir, NewDir(pg.dataDir)) && !upgradeComplete
      modifies `paused, `upgradeComplete, `replicaConnections, `rsyncdConfigsCreated, `rsyncdStarted
      modifies pg`binDir, pg`oldBinDir, pg`oldDataDir, pg.fs, pg.world
      ensures Tidy() && old(pg.fs.log) <= pg.fs.log
      ensures (old(pg.world.faulty) ==> pg.world.faulty) && (old(pg.fs.faulty) ==> pg.fs.faulty)
      ensures pg.world.mon.id == old(pg.world.mon.id) && pg.world.mon.dcs.first == old(pg.world.mon.dcs.first)
      ensures SameHealthBut(old(pg.world.mon.health), pg.world.mon.health, pg.name)
      ensures replicaConnections.Keys <= old(replicaConnections.Keys)
      ensures r.Returned? && upgradeComplete ==>
                && pg.fs.dirs == (old(pg.fs.dirs) - {OldDir(pg.dataDir), NewDir(pg.dataDir)})[pg.dataDir := Upgraded]
                && Finished(pg.world.mon) && (r.value <==> Followed(pg.world.mon))
      ensures r == Returned(true) ==> upgradeComplete && ReplicasCaughtUp(pg.world.mon)
      ensures r != Returned(true) ==> pg.world.faulty || pg.fs.faulty
    {
      hide KeepsData, FileSystem.Valid, World.Valid, Observe, Allowed, GetBinDir;
      var down :- ShutDown();
      if !down {
        return Returned(false);
      }
      r := UpgradeAndFinish(cluster, oldSysid);
    }

    /** do_upgrade after the sanity checks. */
    method UpgradeCluster(cluster: Cluster) returns (r: Call<bool>)
      requires Tidy() && Identified() && ReplicasFit(pg.world.mon) && pg.world.mon.Did(CheckPrimary)
      requires pg.world.mon.dcs.first == Some(cluster) && !pg.world.mon.server.stopped && !pg.world.mon.server.killed
      requires replicaConnections.Keys == pg.world.mon.Replicas()
      requires !paused && pg.world.mon.pause.writes == 0 && !IsPaused(pg.world.config)
      requires pg.world.mon.sync == NO_SYNC && !upgradeComplete
      requires pg.AtHome() && pg.dataDir in pg.fs.dirs && pg.fs.dirs[pg.dataDir] == Old
      requires pg.binDir == GetBinDir(clusterVersion.text) && pg.oldConfigValues.None?
      modifies `paused, `upgradeComplete, `replicaConnections, `rsyncdConfigsCreated, `rsyncdStarted, pg, pg.fs, pg.world
      ensures Tidy() && old(pg.fs.log) <= pg.fs.log
      ensures (old(pg.world.faulty) ==> pg.world.faulty) && (old(pg.fs.faulty) ==> pg.fs.faulty)
      ensures pg.world.mon.id == old(pg.world.mon.id) && pg.world.mon.dcs.first == old(pg.world.mon.dcs.first)
      ensures SameHealthBut(old(pg.world.mon.health), pg.world.mon.health, pg.name)
      ensures replicaConnections.Keys <= old(replicaConnections.Keys)
      ensures r.Returned? && upgradeComplete ==>
                && pg.dataDir == old(pg.dataDir)
                && pg.fs.dirs == (old(pg.fs.dirs) - {OldDir(pg.dataDir), NewDir(pg.dataDir)})[pg.dataDir := Upgraded]
                && pg.parameters == old(pg.parameters)
                && Finished(pg.world.mon) && (r.value <==> Followed(pg.world.mon))
      ensures r == Returned(true) ==> upgradeComplete && ReplicasCaughtUp(pg.world.mon)
      ensures r != Returned(true) ==> pg.world.faulty || pg.fs.faulty
    {
      hide KeepsData, FileSystem.Valid, World.Valid, Observe, Allowed, GetBinDir;
      var oldSysid := AnyText();
      var ready :- PrepareAndPause();
      if !ready {
        return Returned(false);
      }
      r := DoDowntime(cluster, oldSysid);
    }

    /** do_upgrade: nothing to do, or the checks, then the upgrade. It returns True
        only when every replica followed, and fails only when a call failed, the
        cluster was not sane or a replica lagged. */
    method DoUpgrade() returns (r: Call<bool>)
      requires Unstarted()
      modifies `paused, `upgradeComplete, `replicaConnections, `rsyncdConfigsCreated, `rsyncdStarted, pg, pg.fs, pg.world
      ensures Tidy() && old(pg.fs.log) <= pg.fs.log
      ensures pg.world.mon.id == old(pg.world.mon.id)
      ensures !upgradeRequired ==>
                && r == Returned(true) && pg.world.trace == [] && pg.fs.dirs == old(pg.fs.dirs)
                && !paused && !rsyncdStarted && !rsyncdConfigsCreated
      ensures r == Returned(true) && upgradeRequired ==> Done(old(pg.fs.dirs))
      ensures r.Returned? && upgradeComplete ==>
                DirsDone(old(pg.fs.dirs)) && Finished(pg.world.mon) && (r.value <==> Followed(pg.world.mon))
      ensures r != Returned(true) ==> pg.world.faulty || pg.fs.faulty || Unfit(pg.world.mon)
      ensures FoundPaused(pg.world.mon) ==>
                pg.world.mon.pause.writes == 0 && !paused && !rsyncdStarted && !rsyncdConfigsCreated
    {
      hide KeepsData, FileSystem.Valid, Allowed, GetBinDir, Run, Legal;
      if !upgradeRequired {
        return Returned(true);
      }
      var primary :- pg.world.Ask(CheckPrimary);
      if !primary {
        return Returned(false);
      }
      var cluster :- pg.world.GetCluster();
      r := CheckAndUpgrade(cluster);
    }

    /** The cluster as first read fails the checks. */
    ghost predicate Unfit(m: Monitor)
      reads this`replicaCount
    {
      && m.dcs.first.Some?
      && var c := m.dcs.first.value;
         || c.initialize.None? || c.initialize.value == "" || |c.members| != replicaCount
         || ("pause" in c.config && c.config["pause"] == Bool(true)) || c.leader != Some(pg.name)
         || exists k :: k in c.members && k.name != pg.name && (k.host !in m.health.lags || m.health.lags[k.host] > 16777216)
    }

    /** The live directory is upgraded, `_old` and `_new` are gone. */
    ghost predicate DirsDone(d: Dirs)
      reads pg.fs
    {
      pg.fs.dirs == (d - {pg.fs.home + "_old", pg.fs.home + "_new"})[pg.fs.home := Upgraded]
    }

    /** The upgrade of a server with the directories d is done. */
    ghost predicate Done(d: Dirs)
      reads this, pg.fs, pg.world`mon
    {
      && upgradeComplete && DirsDone(d) && AllFollowed(pg.world.mon) && Finished(pg.world.mon)
      && pg.world.mon.dcs.first.Some?
      && var c := pg.world.mon.dcs.first.value;
         && c.initialize.Some? && c.initialize.value != "" && |c.members| == replicaCount
         && !("pause" in c.config && c.config["pause"] == Bool(true)) && c.leader == Some(pg.name)
    }

    method CheckAndUpgrade(cluster: Cluster) returns (r: Call<bool>)
      requires Tidy() && Identified() && pg.world.mon.dcs.first == Some(cluster)
      requires cluster.config == pg.world.config && pg.world.mon.Did(CheckPrimary)
      requires pg.world.mon.pause == NO_PAUSE && !upgradeComplete && !rsyncdConfigsCreated
      requires !pg.world.mon.server.stopped && !pg.world.mon.server.killed
      requires pg.world.mon.sync == NO_SYNC
      requires pg.AtHome() && pg.dataDir in pg.fs.dirs && pg.fs.dirs[pg.dataDir] == Old
      requires pg.binDir == GetBinDir(clusterVersion.text) && pg.oldConfigValues.None?
      modifies `paused, `upgradeComplete, `replicaConnections, `rsyncdConfigsCreated, `rsyncdStarted, pg, pg.fs, pg.world
      ensures Tidy() && old(pg.fs.log) <= pg.fs.log
      ensures pg.world.mon.id == old(pg.world.mon.id)
      ensures (old(pg.world.faulty) ==> pg.world.faulty) && (old(pg.fs.faulty) ==> pg.fs.faulty)
      ensures r == Returned(true) ==> Done(old(pg.fs.dirs)) && pg.parameters == old(pg.parameters)
      ensures r.Returned? && upgradeComplete ==>
                DirsDone(old(pg.fs.dirs)) && Finished(pg.world.mon) && (r.value <==> Followed(pg.world.mon))
      ensures r != Returned(true) ==> pg.world.faulty || pg.fs.faulty || Unfit(pg.world.mon)
      // a pause found set is left alone
      ensures pg.world.mon.dcs.first == Some(cluster)
      ensures IsPaused(cluster.config) ==>
                && r != Returned(true) && pg.world.mon.pause.writes == 0
                && !paused && !rsyncdStarted && !rsyncdConfigsCreated
    {
      hide KeepsData, FileSystem.Valid, World.Traced, Allowed, Observe, GetBinDir;
      var fit :- SanityChecks(cluster);
      if !fit {
        return Returned(false);
      }
      ghost var before := pg.world.mon.health;
      r := UpgradeCluster(cluster);
      assert pg.name !in OtherNames(cluster, pg.name);
      assert forall n :: n in OtherNames(cluster, pg.name) ==> n in before.healthy - {pg.name};
      assert r == Returned(true) ==> AllFollowed(pg.world.mon);
    }

    /** post_cleanup. new_data_created is never set, so nothing else is removed. */
    method PostCleanup()
      requires Tidy()
      modifies `paused, `rsyncdConfigsCreated, `rsyncdStarted, pg.world
      ensures Tidy()
      ensures SameButDcsAndPause(old(pg.world.mon).(sync := pg.world.mon.sync, ran := pg.world.mon.ran), pg.world.mon)
      ensures SameButRsyncd(old(pg.world.mon), old(pg.world.mon).(sync := pg.world.mon.sync, ran := pg.world.mon.ran))
      ensures old(pg.world.faulty) ==> pg.world.faulty
      ensures rsyncdStarted || rsyncdConfigsCreated ==> pg.world.faulty
      ensures !old(paused || rsyncdStarted || rsyncdConfigsCreated) ==>
                pg.world.trace == old(pg.world.trace) && pg.world.mon == old(pg.world.mon)
      ensures !old(paused) ==> !paused
      ensures paused ==> pg.world.trace != [] && ResumeFailed(pg.world.trace[|pg.world.trace| - 1])
    {
      hide World.Valid, Observe, Allowed;
      StopRsyncd();
      ResumeCluster();
    }

    /** try_upgrade: do_upgrade, then post_cleanup whatever happened. */
    method TryUpgrade(replicaCount: int) returns (r: Call<bool>)
      requires Unstarted()
      modifies this, pg, pg.fs, pg.world
      // every run, however it ends, is legal and keeps the data
      ensures Legal(pg.world.start, pg.world.trace) && pg.world.mon == Run(pg.world.start, pg.world.trace)
      ensures KeptThroughout(pg.fs.home, pg.fs.log) && old(pg.fs.log) <= pg.fs.log
      ensures pg.fs.log[|pg.fs.log| - 1] == pg.fs.dirs
      // what the result means
      ensures !upgradeRequired ==> r == Returned(true) && pg.world.trace == [] && pg.fs.dirs == old(pg.fs.dirs)
      ensures r == Returned(true) && upgradeRequired ==> Done(old(pg.fs.dirs))
      ensures r.Returned? && upgradeComplete ==>
                DirsDone(old(pg.fs.dirs)) && Finished(pg.world.mon) && (r.value <==> Followed(pg.world.mon))
      ensures r != Returned(true) ==> Faulty(pg.world.start, pg.world.trace) || pg.fs.faulty || Unfit(pg.world.mon)
      // what is left behind
      ensures paused == pg.world.mon.pause.owned
      ensures FoundPaused(pg.world.mon) ==>
                forall j :: 0 <= j < |pg.world.trace| ==> !pg.world.trace[j].ConfigWrite?
      ensures !IsPaused(old(pg.world.config)) && NoOthers(pg.world.trace) && IsPaused(pg.world.config) ==>
                || LostPause(pg.world.trace)
                || (pg.world.trace != []
                    && (pg.world.trace[|pg.world.trace| - 1].ClusterReadFailed?
                        || pg.world.trace[|pg.world.trace| - 1].ConfigWriteFailed?))
      ensures paused ==> pg.world.trace != [] && ResumeFailed(pg.world.trace[|pg.world.trace| - 1])
      ensures rsyncdStarted || rsyncdConfigsCreated ==> Faulty(pg.world.start, pg.world.trace)
    {
      hide KeepsData, Observe, Allowed, GetBinDir, Run, Legal, Faulty, KeptThroughout, NoOthers, LostPause;
      hide Finished, Followed, AllFollowed, SameButRsyncd, SameButDcsAndPause, ResumeFailed, IsPaused;
      this.replicaCount := replicaCount;
      r := DoUpgrade();
      ghost var before := pg.world.mon;
      PostCleanup();
      StillDone(before, pg.world.mon);
      assert Environment.Asked(pg.world.trace);
      assert FileSystems.Asked(pg.fs.log);
      NoPauseNoWrite(pg.world.start, pg.world.trace);
      if !IsPaused(old(pg.world.config)) && NoOthers(pg.world.trace) {
        EndsUnpaused(pg.world.start, pg.world.trace);
      }
    }
  }

  // ---- What a step leaves alone ---------------------------------------------------------

  /** The first reading of the cluster, if any, found it paused. */
  predicate FoundPaused(m: Monitor) {
    m.dcs.first.None? || IsPaused(m.dcs.first.value.config)
  }

  /** Everybody listed with at least lsn has caught up. */
  predicate Replayed(status: map<string, nat>, lsn: nat, caughtUp: set<string>) {
    forall n :: n in status && status[n] >= lsn ==> n in caughtUp
  }

  /** All that was to be done once the directories were switched. */
  predicate Finished(m: Monitor) {
    && m.dcs.first.Some?
    && m.Did(UpdateConfigs) && m.Did(KillPatroni) && m.Tried(RestartPostgres) && Completed(m)
  }

  /** And at the very end. */
  predicate Completed(m: Monitor) {
    && m.Tried(UpdateExtensions) && m.Tried(RecreateExtensions) && m.Tried(Analyze)
    && m.Did(Reanalyze) && m.Tried(PostBootstrap)
  }

  /** What post_cleanup leaves alone. */
  lemma StillDone(m: Monitor, n: Monitor)
    requires SameButDcsAndPause(m.(sync := n.sync, ran := n.ran), n) && SameButRsyncd(m, m.(sync := n.sync, ran := n.ran))
    ensures Finished(m) ==> Finished(n)
    ensures AllFollowed(m) ==> AllFollowed(n)
    ensures Finished(m) ==> (Followed(m) <==> Followed(n))
    ensures n.id == m.id && n.health == m.health && (m.dcs.first.Some? ==> n.dcs.first == m.dcs.first)
  {
  }

  /** An attempt to lift the pause has failed in between. */
  predicate TriedToResume(before: seq<Event>, after: seq<Event>) {
    exists i :: |before| <= i < |after| && ResumeFailed(after[i])
  }

  predicate SameButHealth(m: Monitor, n: Monitor) {
    n == m.(health := n.health) && n.health.lags == m.health.lags
  }

  lemma HealthOnly(m: Monitor, n: Monitor)
    requires SameButHealth(m, n)
    ensures n == m.(health := n.health) && n.health.lags == m.health.lags
  {
  }

  lemma StreamingSeen(m: Monitor, lags: map<string, int>)
    ensures Observe(m, Streaming(lags)) == m.(health := m.health.(lags := lags)) && Allowed(m, Streaming(lags))
  {
  }

  predicate SameButCaughtUp(m: Monitor, n: Monitor) {
    n == m.(sync := m.sync.(caughtUp := n.sync.caughtUp, behind := n.sync.behind))
  }

  predicate AllSucceeded(status: map<string, string>) {
    forall n :: n in status ==> Succeeded(status[n])
  }

  predicate SameButCheckpointed(m: Monitor, n: Monitor) {
    n == m.(sync := m.sync.(checkpointed := n.sync.checkpointed))
  }

  predicate SameButRsyncOk(m: Monitor, n: Monitor) {
    n == m.(sync := m.sync.(rsyncOk := n.sync.rsyncOk, silent := n.sync.silent))
  }

  predicate SameButFeedback(m: Monitor, n: Monitor) {
    n == m.(sync := m.sync.(notified := n.sync.notified, rsyncOk := n.sync.rsyncOk, silent := n.sync.silent))
  }

  lemma NotifiedNext(m: Monitor, name: string, version: string, primary: Option<string>)
    ensures forall ok ::
              Observe(m, CopyToProgram(name, version, primary, ok))
              == m.(sync := m.sync.(notified := Mark(m.sync.notified, name, ok)))
    ensures forall ok :: MayNotify(m, {name}, version, primary) ==> Allowed(m, CopyToProgram(name, version, primary, ok))
  {
  }

  lemma ReplayedNext(m: Monitor, name: string, lsn: nat)
    ensures
      var there := m.sync.checkpointLsn.Some? && m.sync.checkpointLsn.value <= lsn;
      Observe(m, ReplayLsn(name, lsn))
      == m.(sync := m.sync.(caughtUp := Mark(m.sync.caughtUp, name, there), behind := Mark(m.sync.behind, name, !there)))
    ensures Allowed(m, ReplayLsn(name, lsn))
  {
  }

  lemma ReportNext(m: Monitor, name: string)
    ensures forall status ::
              && Observe(m, Feedback(name, status))
                 == m.(sync := m.sync.(rsyncOk := Mark(m.sync.rsyncOk, name, Succeeded(status) && name in m.sync.notified),
                                       silent := m.sync.silent - {name}))
              && (!m.server.killed ==> Allowed(m, Feedback(name, status)))
    ensures Observe(m, NoFeedback(name)) == m.(sync := m.sync.(silent := m.sync.silent + {name})) && Allowed(m, NoFeedback(name))
  {
  }

  /** The named replicas may be told to rsync from us, to that version. */
  predicate MayNotify(m: Monitor, names: set<string>, version: string, primary: Option<string>) {
    && version == m.id.desired && m.dcs.first.Some? && primary == HostOf(m.dcs.first.value, m.id.me)
    && m.server.switched && m.Did(UpdateConfigs) && !m.sync.rsyncd.Absent?
    && names <= m.sync.caughtUp && names <= m.sync.checkpointed
  }

  /** `ok` are exactly those of `names` whose status was read and is a success. */
  predicate FeedbackSeen(status: map<string, string>, names: set<string>, ok: set<string>) {
    && status.Keys <= names
    && ok == set n | n in status && Succeeded(status[n])
  }

  predicate SameButCheck(m: Monitor, n: Monitor) {
    n == m.(ran := n.ran, server := m.server.(checkOk := n.server.checkOk, begun := n.server.begun)) && m.ran <= n.ran
  }

  predicate SameButPreparation(m: Monitor, n: Monitor) {
    && m.ran <= n.ran
    && n == m.(ran := n.ran, server := m.server.(checkOk := n.server.checkOk, begun := n.server.begun), dcs := n.dcs, pause := n.pause)
    && (m.dcs.first.Some? ==> n.dcs.first == m.dcs.first)
  }

  predicate SameButShutdown(m: Monitor, n: Monitor) {
    && m.ran <= n.ran
    && n == m.(ran := n.ran, server := m.server.(stopped := n.server.stopped),
            sync := m.sync.(checkpointLsn := n.sync.checkpointLsn, caughtUp := n.sync.caughtUp,
                              behind := n.sync.behind, rsyncd := n.sync.rsyncd))
  }

  predicate SameButServer(m: Monitor, n: Monitor) {
    && m.ran <= n.ran
    && n == m.(ran := n.ran, server := m.server.(upgraded := n.server.upgraded, switched := n.server.switched, begun := n.server.begun))
  }

  predicate SameButUpgrade(m: Monitor, n: Monitor) {
    && m.ran <= n.ran
    && n == m.(ran := n.ran, server := m.server.(upgraded := n.server.upgraded, switched := n.server.switched, begun := n.server.begun),
            sync := m.sync.(checkpointed := n.sync.checkpointed))
  }

  predicate SameButSync(m: Monitor, n: Monitor) {
    && m.ran <= n.ran
    && n == m.(ran := n.ran, sync := m.sync.(notified := n.sync.notified, rsyncOk := n.sync.rsyncOk,
                                             silent := n.sync.silent, rsyncd := n.sync.rsyncd))
  }

  lemma ReadyToUpgrade(m: Monitor)
    requires m.server.stopped && ReplicasReady(m) && m.Did(DropObjects)
    ensures Allowed(m, PgUpgradeStart(false, m.id.clusterBin, m.id.desiredBin))
  {
  }

  /** Only the health of one member may differ. */
  predicate SameHealthBut(h: Health, k: Health, name: string) {
    k.lags == h.lags && k.recovering == h.recovering && k.healthy - {name} == h.healthy - {name}
  }

  predicate SameButHealthOf(m: Monitor, n: Monitor, name: string) {
    n == m.(health := n.health) && SameHealthBut(m.health, n.health, name)
  }

  predicate SameButFinish(m: Monitor, n: Monitor, me: string) {
    && m.ran <= n.ran
    && n == m.(ran := n.ran, server := m.server.(killed := n.server.killed), dcs := n.dcs, pause := n.pause, health := n.health)
    && n.pause == m.pause.(acked := n.pause.acked)
    && SameHealthBut(m.health, n.health, me)
    && (m.dcs.first.Some? ==> n.dcs.first == m.dcs.first)
  }

  predicate SameButEnding(m: Monitor, n: Monitor, me: string) {
    && m.ran <= n.ran
    && n == m.(ran := n.ran, server := m.server.(killed := n.server.killed), dcs := n.dcs, pause := n.pause, health := n.health,
               sync := m.sync.(notified := n.sync.notified, rsyncOk := n.sync.rsyncOk,
                               silent := n.sync.silent, rsyncd := n.sync.rsyncd))
    && SameHealthBut(m.health, n.health, me)
    && n.dcs.first == m.dcs.first
  }

  /** All replicas ran CHECKPOINT and reported a successful rsync. */
  predicate Followed(m: Monitor) {
    m.Replicas() <= m.sync.checkpointed && m.Replicas() <= m.sync.rsyncOk
  }

  /** All replicas replayed the shutdown checkpoint. */
  predicate ReplicasCaughtUp(m: Monitor) {
    m.Replicas() != {} ==> m.sync.checkpointLsn.Some? && m.Replicas() <= m.sync.caughtUp
  }

  predicate SameButOutcome(m: Monitor, n: Monitor, me: string) {
    && m.ran <= n.ran
    && n == m.(ran := n.ran, dcs := n.dcs, pause := n.pause, health := n.health,
               server := m.server.(upgraded := n.server.upgraded, switched := n.server.switched, begun := n.server.begun,
                                   killed := n.server.killed),
               sync := m.sync.(checkpointed := n.sync.checkpointed, notified := n.sync.notified,
                               rsyncOk := n.sync.rsyncOk, silent := n.sync.silent, rsyncd := n.sync.rsyncd))
    && SameHealthBut(m.health, n.health, me)
    && n.dcs.first == m.dcs.first
  }

  /** Every replica of the first reading streamed with little lag, was healthy and
      in recovery, replayed the shutdown checkpoint, ran CHECKPOINT and reported a
      successful rsync. */
  predicate AllFollowed(m: Monitor) {
    ReplicasFit(m) && ReplicasCaughtUp(m) && Followed(m)
  }

  predicate SameButRsyncd(m: Monitor, n: Monitor) {
    m.ran <= n.ran && n == m.(ran := n.ran, sync := m.sync.(rsyncd := n.sync.rsyncd))
  }

  predicate SameButFollowing(m: Monitor, n: Monitor) {
    && m.ran <= n.ran
    && n == m.(ran := n.ran, sync := m.sync.(checkpointLsn := n.sync.checkpointLsn, caughtUp := n.sync.caughtUp,
                                             behind := n.sync.behind, rsyncd := n.sync.rsyncd))
  }

  /** Only the cluster as read, the config and the acknowledgement may differ. */
  predicate SameButDcs(m: Monitor, n: Monitor) {
    && SameButDcsAndPause(m, n)
    && n.pause == m.pause.(acked := n.pause.acked)
    && (m.pause.acked ==> n.pause.acked)
  }

  predicate SameButDcsAndPause(m: Monitor, n: Monitor) {
    && m.ran <= n.ran
    && n == m.(ran := n.ran, dcs := n.dcs, pause := n.pause)
    && (m.dcs.first.Some? ==> n.dcs.first == m.dcs.first)
  }

  /** The pause has not been written yet and pg_upgrade --check passed. */
  predicate MayPause(m: Monitor) {
    m.pause.writes == 0 && m.server.checkOk && m.Did(DropObjects)
  }
}
