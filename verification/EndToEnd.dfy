/** The end-to-end promise of an upgrade that returned True, in terms of what happened. */
module EndToEnd {
  import opened Wrappers
  import opened Protocol
  import opened ProtocolTheorems
  import opened InplaceUpgrades

  /** The events that brought one replica along, by their place in the trace. */
  datatype Steps = Steps(
    streaming: nat, healthy: nat, recovering: nat,     // the sanity checks
    extensions: nat,                                   // incompatible extensions dropped
    checkStart: nat, checkPassed: nat,                 // pg_upgrade --check
    objects: nat,                                      // incompatible objects dropped
    pause: nat, acknowledged: nat, stop: nat,          // our pause, its acknowledgement, the shutdown
    controlData: nat, replayed: nat,                   // the shutdown checkpoint and its replay
    upgradeStart: nat, upgraded: nat, switch: nat,     // the real pg_upgrade and the new directory
    configs: nat,                                      // update_configs
    checkpoint: nat, told: nat, reported: nat,         // CHECKPOINT and rsync on the replica
    killed: nat, restarted: nat, updated: nat,         // Patroni, the server, its extensions
    analyzed: nat, reanalyzed: nat, finished: nat)     // the statistics, call_post_bootstrap

  /** They all happened, for the member m of the first reading c, and in this order. */
  ghost predicate FollowedInOrder(s: Monitor, t: seq<Event>, c: Cluster, m: Member, x: Steps) {
    && PreparedInOrder(s, t, m, x) && RsyncedInOrder(s, t, c, m, x) && EndedInOrder(t, x)
  }

  /** From the sanity checks to the start of the real pg_upgrade. */
  ghost predicate PreparedInOrder(s: Monitor, t: seq<Event>, m: Member, x: Steps) {
    && x.streaming < x.checkStart && x.healthy < x.checkStart && x.recovering < x.checkStart && x.extensions < x.checkStart
    && x.checkStart < x.checkPassed < x.objects < x.pause < x.acknowledged < x.stop < x.controlData < x.replayed
       < x.upgradeStart < |t|
    && t[x.streaming].Streaming? && m.host in t[x.streaming].lags && t[x.streaming].lags[m.host] <= 16777216
    && t[x.healthy] == ApiCheck(m.name, true) && t[x.recovering] == RecoveryCheck(m.name, true)
    && t[x.extensions] == Ran(DropExtensions, true)
    && t[x.checkStart] == PgUpgradeStart(true, s.id.clusterBin, s.id.desiredBin)
    && StopInOrder(s, t, x.checkPassed, x.objects, x.pause, x.acknowledged, x.stop)
    && t[x.controlData].ControlData? && t[x.controlData].state == Some("shut down") && t[x.controlData].lsn.Some?
    && t[x.replayed].ReplayLsn? && t[x.replayed].name == m.name
    && t[x.controlData].lsn.value <= t[x.replayed].replayed
    && t[x.upgradeStart] == PgUpgradeStart(false, s.id.clusterBin, s.id.desiredBin)
  }

  /** From there to the report of the replica, which was told the version and our host. */
  ghost predicate RsyncedInOrder(s: Monitor, t: seq<Event>, c: Cluster, m: Member, x: Steps) {
    && x.upgradeStart < x.upgraded < x.switch < x.configs < x.told < x.reported < |t| && x.checkpoint < x.told
    && t[x.upgraded] == PgUpgradeExit(false, true) && t[x.switch] == SwitchDirs && t[x.configs] == Ran(UpdateConfigs, true)
    && t[x.checkpoint] == Checkpoint(m.name, true)
    && t[x.told] == CopyToProgram(m.name, s.id.desired, HostOf(c, s.id.me), true)
    && t[x.reported].Feedback? && t[x.reported].name == m.name
    && t[x.reported].status != "" && t[x.reported].status[0] == '0'
  }

  /** And to the end. */
  ghost predicate EndedInOrder(t: seq<Event>, x: Steps) {
    && x.reported < x.killed < x.restarted < x.updated < x.analyzed < x.reanalyzed < x.finished < |t|
    && t[x.killed] == Ran(KillPatroni, true) && t[x.restarted].Ran? && t[x.restarted].step == RestartPostgres
    && t[x.updated].Ran? && t[x.updated].step == UpdateExtensions && t[x.analyzed].Ran? && t[x.analyzed].step == Analyze
    && t[x.reanalyzed].Ran? && t[x.reanalyzed].step == Reanalyze && t[x.finished].Ran? && t[x.finished].step == PostBootstrap
  }

  /** When everybody followed and the end was reached, every member of the cluster as first
      read, but us, did so step by step. */
  lemma EveryReplicaFollowed(s: Monitor, t: seq<Event>, m: Member) returns (x: Steps)
    requires s.Initial() && s.id.role.Primary? && Legal(s, t) && AllFollowed(Run(s, t)) && Finished(Run(s, t))
    requires m in Run(s, t).dcs.first.value.members && m.name != s.id.me
    ensures FollowedInOrder(s, t, Run(s, t).dcs.first.value, m, x)
  {
    IsReplica(s, t, m);
    assert Run(s, t).Tried(PostBootstrap);
    hide Run, Legal, Finished, AllFollowed, PreparedInOrder, RsyncedInOrder, EndedInOrder;
    var k, q, u, sw, f, g, j := RsyncInOrder(s, t, m.name);
    var b := ExitAfterStart(s, t, u);
    var y := Prepared(s, t, m, b);
    var ki, re, up, an, ra, fi := EndInOrder(s, t);
    x := y.(upgraded := u, switch := sw, configs := f, checkpoint := q, told := g, reported := j,
            killed := ki, restarted := re, updated := up, analyzed := an, reanalyzed := ra, finished := fi);
    Rsynced(s, t, m, x);
    SamePreparation(s, t, m, y, x);
    Ended(t, x);
  }

  lemma SamePreparation(s: Monitor, t: seq<Event>, m: Member, y: Steps, x: Steps)
    requires PreparedInOrder(s, t, m, y)
    requires x == y.(upgraded := x.upgraded, switch := x.switch, configs := x.configs, checkpoint := x.checkpoint,
                     told := x.told, reported := x.reported, killed := x.killed, restarted := x.restarted,
                     updated := x.updated, analyzed := x.analyzed, reanalyzed := x.reanalyzed, finished := x.finished)
    ensures PreparedInOrder(s, t, m, x)
  {
  }

  lemma Ended(t: seq<Event>, x: Steps)
    requires x.reported < x.killed < x.restarted < x.updated < x.analyzed < x.reanalyzed < x.finished < |t|
    requires t[x.killed] == Ran(KillPatroni, true) && t[x.restarted].Ran? && t[x.restarted].step == RestartPostgres
    requires t[x.updated].Ran? && t[x.updated].step == UpdateExtensions && t[x.analyzed].Ran? && t[x.analyzed].step == Analyze
    requires t[x.reanalyzed].Ran? && t[x.reanalyzed].step == Reanalyze && t[x.finished].Ran? && t[x.finished].step == PostBootstrap
    ensures EndedInOrder(t, x)
  {
  }

  lemma Rsynced(s: Monitor, t: seq<Event>, m: Member, x: Steps)
    requires x.upgradeStart < x.upgraded < x.switch < x.configs < x.told < x.reported < |t| && x.checkpoint < x.told
    requires t[x.upgraded] == PgUpgradeExit(false, true) && t[x.switch] == SwitchDirs && t[x.configs] == Ran(UpdateConfigs, true)
    requires t[x.checkpoint] == Checkpoint(m.name, true)
    requires t[x.told].CopyToProgram? && t[x.told].name == m.name && t[x.told].version == s.id.desired && t[x.told].ok
    requires Before(s, t, x.told).dcs.first.Some? && Run(s, t).dcs.first.Some?
    requires t[x.told].primary == HostOf(Before(s, t, x.told).dcs.first.value, s.id.me)
    requires t[x.reported].Feedback? && t[x.reported].name == m.name && Succeeded(t[x.reported].status)
    ensures RsyncedInOrder(s, t, Run(s, t).dcs.first.value, m, x)
  {
    hide HostOf, Run;
    FirstReadStays(s, t, x.told);
  }

  /** What came before the real pg_upgrade that starts at b; the rest is left open. */
  lemma Prepared(s: Monitor, t: seq<Event>, m: Member, b: nat) returns (x: Steps)
    requires s.Initial() && s.id.role.Primary? && Legal(s, t) && b < |t| && t[b].PgUpgradeStart? && !t[b].check
    requires Run(s, t).dcs.first.Some? && m in Run(s, t).dcs.first.value.members && m.name != s.id.me
    ensures PreparedInOrder(s, t, m, x) && x.upgradeStart == b
  {
    hide Run, Legal, Allowed, StopInOrder;
    var d, e, k := ReplayedBeforeUpgrade(s, t, b, m);
    var c, o, w, a := StopsInOrder(s, t, d);
    var b0, l, h, v := FitBeforeStop(s, t, m, c, o, w, a, d);
    var i := ExtensionsBeforeCheck(s, t, b0);
    RightBinaries(s, t, b0);
    RightBinaries(s, t, b);
    StopsAre(s, t, c, o, w, a, d);
    x := Steps(l, h, v, i, b0, c, o, w, a, d, e, k, b, 0, 0, 0, 0, 0, 0, 0, 0, 0, 0, 0, 0);
  }

  lemma ExtensionsBeforeCheck(s: Monitor, t: seq<Event>, b: nat) returns (i: nat)
    requires s.Initial() && s.id.role.Primary? && Legal(s, t) && b < |t| && t[b].PgUpgradeStart? && t[b].check
    ensures i < b && t[i] == Ran(DropExtensions, true)
  {
    LegalAt(s, t, b);
    SameIdentity(s, t[..b]);
    i := RanOrigin(s, t[..b], DropExtensions, true);
  }

  lemma IsReplica(s: Monitor, t: seq<Event>, m: Member)
    requires Run(s, t).dcs.first.Some? && AllFollowed(Run(s, t))
    requires m in Run(s, t).dcs.first.value.members && m.name != s.id.me
    ensures m.name in Run(s, t).Replicas() && m.name in Run(s, t).sync.rsyncOk
  {
    SameIdentity(s, t);
  }

  lemma RightBinaries(s: Monitor, t: seq<Event>, i: nat)
    requires Legal(s, t) && i < |t| && t[i].PgUpgradeStart?
    ensures t[i] == PgUpgradeStart(t[i].check, s.id.clusterBin, s.id.desiredBin)
  {
    LegalAt(s, t, i);
    SameIdentity(s, t[..i]);
  }

  lemma StopsAre(s: Monitor, t: seq<Event>, c: nat, o: nat, w: nat, a: nat, d: nat)
    requires StopInOrder(s, t, c, o, w, a, d)
    ensures c < o < w < a < d < |t| && t[c] == PgUpgradeExit(true, true)
  {
  }

  /** The replay before a real pg_upgrade, by a member of the first reading. */
  lemma ReplayedBeforeUpgrade(s: Monitor, t: seq<Event>, b: nat, m: Member) returns (d: nat, e: nat, k: nat)
    requires s.Initial() && s.id.role.Primary? && Legal(s, t) && b < |t| && t[b].PgUpgradeStart? && !t[b].check
    requires Run(s, t).dcs.first.Some? && m in Run(s, t).dcs.first.value.members && m.name != s.id.me
    ensures d < e < k < b && t[d] == Stop(true)
    ensures t[e].ControlData? && t[e].state == Some("shut down") && t[e].lsn.Some?
    ensures t[k].ReplayLsn? && t[k].name == m.name && t[e].lsn.value <= t[k].replayed
  {
    var d0;
    LegalAt(s, t, b);
    SameIdentity(s, t[..b]);
    d0 := StoppedOrigin(s, t[..b]);
    var c, o, w, a := StopsInOrder(s, t, d0);
    ReadWhenPaused(s, t, w);
    FirstKnownLater(s, t, w, b);
    FirstReadStays(s, t, b);
    assert m.name in Before(s, t, b).Replicas();
    var f, p;
    d, e, k, f, p := ReplicaReadyBeforeUpgrade(s, t, b, m.name);
  }

  lemma ReadWhenPaused(s: Monitor, t: seq<Event>, w: nat)
    requires s.Initial() && Legal(s, t) && w < |t| && t[w].ConfigWrite?
    ensures Before(s, t, w).dcs.first.Some?
  {
    LegalAt(s, t, w);
    if Before(s, t, w).dcs.first.None? {
      NothingReadYet(s, t[..w]);
    }
  }

  lemma FirstKnownLater(s: Monitor, t: seq<Event>, i: nat, j: nat)
    requires i <= j <= |t| && Before(s, t, i).dcs.first.Some?
    ensures Before(s, t, j).dcs.first.Some?
  {
    assert t[..j][..i] == t[..i];
    FirstReadStays(s, t[..j], i);
  }

  /** The sanity checks before the check that a stop relies on. */
  lemma FitBeforeStop(s: Monitor, t: seq<Event>, m: Member, c: nat, o: nat, w: nat, a: nat, d: nat)
    returns (b: nat, l: nat, h: nat, v: nat)
    requires s.Initial() && s.id.role.Primary? && Legal(s, t) && StopInOrder(s, t, c, o, w, a, d)
    requires Run(s, t).dcs.first.Some? && m in Run(s, t).dcs.first.value.members && m.name != s.id.me
    ensures l < b && h < b && v < b < c && t[b].PgUpgradeStart? && t[b].check
    ensures t[l].Streaming? && LagOk(m, t[l].lags)
    ensures t[h] == ApiCheck(m.name, true) && t[v] == RecoveryCheck(m.name, true)
  {
    b := ExitAfterStart(s, t, c);
    l, h, v := FitBeforeCheck(s, t, b, m);
  }
}
