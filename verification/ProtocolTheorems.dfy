/** What every legal trace of an upgrade promises, in terms of its events. */
module ProtocolTheorems {
  import opened Wrappers
  import opened Protocol
  import opened ServerParameters

  /** What the monitor knows just before event i. */
  function Before(s: Monitor, t: seq<Event>, i: nat): Monitor
    requires i <= |t|
  {
    Run(s, t[..i])
  }

  lemma {:induction false} LegalAt(s: Monitor, t: seq<Event>, i: nat)
    requires Legal(s, t) && i < |t|
    ensures Allowed(Before(s, t, i), t[i])
    ensures Legal(s, t[..i])
  {
    if i < |t| - 1 {
      LegalAt(s, t[..|t| - 1], i);
      assert t[..|t| - 1][..i] == t[..i];
    }
  }

  lemma {:induction false} SameIdentity(s: Monitor, t: seq<Event>)
    ensures Run(s, t).id == s.id
  {
    if t != [] {
      SameIdentity(s, t[..|t| - 1]);
    }
  }

  // ---- Where each piece of knowledge comes from -----------------------------------

  lemma {:induction false} FirstReadOrigin(s: Monitor, t: seq<Event>) returns (i: nat)
    requires s.Initial() && Run(s, t).dcs.first.Some?
    ensures i < |t| && t[i] == ClusterRead(Run(s, t).dcs.first.value)
    ensures forall j :: 0 <= j < i ==> !t[j].ClusterRead?
  {
    var u := t[..|t| - 1];
    if Run(s, u).dcs.first.Some? {
      i := FirstReadOrigin(s, u);
    } else {
      i := |t| - 1;
      NothingReadYet(s, u);
    }
  }

  lemma {:induction false} NothingReadYet(s: Monitor, t: seq<Event>)
    requires s.Initial() && Run(s, t).dcs.first.None?
    ensures Run(s, t).dcs.lastRead.None?
    ensures forall j :: 0 <= j < |t| ==> !t[j].ClusterRead?
  {
    if t != [] {
      NothingReadYet(s, t[..|t| - 1]);
    }
  }

  /** What was read first stays what was read first. */
  lemma {:induction false} FirstReadStays(s: Monitor, t: seq<Event>, i: nat)
    requires i <= |t| && Before(s, t, i).dcs.first.Some?
    ensures Run(s, t).dcs.first == Before(s, t, i).dcs.first
  {
    if i == |t| {
      assert t[..i] == t;
    } else {
      assert t[..|t| - 1][..i] == t[..i];
      FirstReadStays(s, t[..|t| - 1], i);
    }
  }

  lemma {:induction false} BegunOrigin(s: Monitor, t: seq<Event>, check: bool) returns (i: nat)
    requires s.Initial() && check in Run(s, t).server.begun
    ensures i < |t| && t[i].PgUpgradeStart? && t[i].check == check
  {
    var e := t[|t| - 1];
    if e.PgUpgradeStart? && e.check == check {
      i := |t| - 1;
    } else {
      i := BegunOrigin(s, t[..|t| - 1], check);
    }
  }

  lemma {:induction false} CheckOrigin(s: Monitor, t: seq<Event>) returns (i: nat)
    requires s.Initial() && Run(s, t).server.checkOk
    ensures i < |t| && t[i] == PgUpgradeExit(true, true)
  {
    if t[|t| - 1] == PgUpgradeExit(true, true) {
      i := |t| - 1;
    } else {
      i := CheckOrigin(s, t[..|t| - 1]);
    }
  }

  lemma {:induction false} UpgradedOrigin(s: Monitor, t: seq<Event>) returns (i: nat)
    requires s.Initial() && Run(s, t).server.upgraded
    ensures i < |t| && t[i] == PgUpgradeExit(false, true)
  {
    if t[|t| - 1] == PgUpgradeExit(false, true) {
      i := |t| - 1;
    } else {
      i := UpgradedOrigin(s, t[..|t| - 1]);
    }
  }

  lemma {:induction false} SwitchedOrigin(s: Monitor, t: seq<Event>) returns (i: nat)
    requires s.Initial() && Run(s, t).server.switched
    ensures i < |t| && t[i] == SwitchDirs
  {
    if t[|t| - 1] == SwitchDirs {
      i := |t| - 1;
    } else {
      i := SwitchedOrigin(s, t[..|t| - 1]);
    }
  }

  lemma {:induction false} StoppedOrigin(s: Monitor, t: seq<Event>) returns (i: nat)
    requires s.Initial() && Run(s, t).server.stopped
    ensures i < |t| && t[i] == Stop(true)
  {
    if t[|t| - 1] == Stop(true) {
      i := |t| - 1;
    } else {
      i := StoppedOrigin(s, t[..|t| - 1]);
    }
  }

  /** A pause of ours: event i wrote it, acknowledged, and no later write of ours
      was acknowledged. */
  predicate OwnsSince(t: seq<Event>, i: nat) {
    && i < |t| && t[i].ConfigWrite? && t[i].acked && IsPaused(t[i].written)
    && (forall j :: i < j < |t| ==> !(t[j].ConfigWrite? && t[j].acked))
  }

  lemma {:induction false} OwnedOrigin(s: Monitor, t: seq<Event>) returns (i: nat)
    requires s.Initial() && Run(s, t).pause.owned
    ensures OwnsSince(t, i)
  {
    var e, u := t[|t| - 1], t[..|t| - 1];
    if e.ConfigWrite? && e.acked {
      i := |t| - 1;
    } else {
      i := OwnedOrigin(s, u);
      assert t == u + [e];
    }
  }

  /** The names that were to acknowledge stem from the last pausing write. */
  lemma {:induction false} AckedOrigin(s: Monitor, t: seq<Event>) returns (i: nat)
    requires s.Initial() && Run(s, t).pause.acked
    ensures i < |t| && t[i].ClusterRead?
    ensures
      var m := Before(s, t, i);
      m.pause.owned && AllReport(t[i].cluster, m.pause.ackNames, true)
  {
    var u := t[..|t| - 1];
    if Run(s, u).pause.acked && !t[|t| - 1].ConfigWrite? {
      i := AckedOrigin(s, u);
      assert u[..i] == t[..i];
    } else {
      i := |t| - 1;
    }
  }

  /** ackNames are the members with an API in the last reading before the last
      pausing write. */
  lemma {:induction false} AckNamesOrigin(s: Monitor, t: seq<Event>) returns (w: nat)
    requires s.Initial() && Legal(s, t) && Run(s, t).pause.owned && s.id.role.Primary?
    ensures w < |t| && t[w].ConfigWrite? && IsPaused(t[w].written)
    ensures forall j :: w < j < |t| && t[j].ConfigWrite? ==> !IsPaused(t[j].written)
    ensures
      var m := Before(s, t, w);
      m.dcs.lastRead.Some? && Run(s, t).pause.ackNames == ApiNames(m.dcs.lastRead.value)
  {
    var e, u := t[|t| - 1], t[..|t| - 1];
    assert t == u + [e];
    if e.ConfigWrite? && IsPaused(e.written) {
      w := |t| - 1;
      LegalAt(s, t, w);
    } else {
      w := AckNamesOrigin(s, u);
      assert u[..w] == t[..w];
    }
  }

  lemma {:induction false} CheckpointOrigin(s: Monitor, t: seq<Event>) returns (i: nat)
    requires s.Initial() && Run(s, t).sync.checkpointLsn.Some?
    ensures i < |t| && t[i].ControlData? && t[i].state == Some("shut down") && t[i].lsn == Run(s, t).sync.checkpointLsn
    ensures Before(s, t, i).server.stopped
    ensures forall j :: i < j < |t| ==> !t[j].ControlData?
  {
    var u := t[..|t| - 1];
    if t[|t| - 1].ControlData? {
      i := |t| - 1;
    } else {
      i := CheckpointOrigin(s, u);
      assert u[..i] == t[..i];
    }
  }

  /** A replica that caught up replayed the checkpoint read before. */
  lemma {:induction false} CaughtUpOrigin(s: Monitor, t: seq<Event>, name: string) returns (c: nat, i: nat)
    requires s.Initial() && name in Run(s, t).sync.caughtUp
    ensures c < i < |t| && t[i].ReplayLsn? && t[i].name == name
    ensures t[c].ControlData? && t[c].state == Some("shut down") && t[c].lsn.Some? && t[c].lsn.value <= t[i].replayed
    ensures Before(s, t, c).server.stopped
  {
    var e, u := t[|t| - 1], t[..|t| - 1];
    if e.ReplayLsn? && e.name == name {
      c := CheckpointOrigin(s, u);
      i := |t| - 1;
    } else {
      c, i := CaughtUpOrigin(s, u, name);
    }
    assert u[..c] == t[..c];
  }

  lemma {:induction false} AliveOrigin(s: Monitor, t: seq<Event>) returns (f: nat, p: nat)
    requires s.Initial() && Run(s, t).sync.rsyncd.Alive?
    ensures f < p < |t| && t[f] == RsyncdStart && t[p] == RsyncdPoll(true)
  {
    if t[|t| - 1] == RsyncdPoll(true) {
      f := RunningOrigin(s, t[..|t| - 1]);
      p := |t| - 1;
    } else {
      f, p := AliveOrigin(s, t[..|t| - 1]);
    }
  }

  lemma {:induction false} RunningOrigin(s: Monitor, t: seq<Event>) returns (f: nat)
    requires s.Initial() && !Run(s, t).sync.rsyncd.Absent?
    ensures f < |t| && t[f] == RsyncdStart
  {
    if t[|t| - 1] == RsyncdStart {
      f := |t| - 1;
    } else {
      f := RunningOrigin(s, t[..|t| - 1]);
    }
  }

  lemma {:induction false} CheckpointedOrigin(s: Monitor, t: seq<Event>, name: string) returns (i: nat)
    requires s.Initial() && name in Run(s, t).sync.checkpointed
    ensures i < |t| && t[i] == Checkpoint(name, true)
  {
    if t[|t| - 1] == Checkpoint(name, true) {
      i := |t| - 1;
    } else {
      i := CheckpointedOrigin(s, t[..|t| - 1], name);
    }
  }

  lemma {:induction false} NotifiedOrigin(s: Monitor, t: seq<Event>, name: string) returns (i: nat)
    requires s.Initial() && name in Run(s, t).sync.notified
    ensures i < |t| && t[i].CopyToProgram? && t[i].name == name && t[i].ok
  {
    var e := t[|t| - 1];
    if e.CopyToProgram? && e.name == name && e.ok {
      i := |t| - 1;
    } else {
      i := NotifiedOrigin(s, t[..|t| - 1], name);
    }
  }

  lemma {:induction false} RsyncOrigin(s: Monitor, t: seq<Event>, name: string) returns (h: nat, i: nat)
    requires s.Initial() && name in Run(s, t).sync.rsyncOk
    ensures h < i < |t| && t[i].Feedback? && t[i].name == name && Succeeded(t[i].status)
    ensures t[h].CopyToProgram? && t[h].name == name && t[h].ok
  {
    var e, u := t[|t| - 1], t[..|t| - 1];
    if e.Feedback? && e.name == name {
      h := NotifiedOrigin(s, u, name);
      i := |t| - 1;
    } else {
      h, i := RsyncOrigin(s, u, name);
    }
  }

  lemma {:induction false} RanOrigin(s: Monitor, t: seq<Event>, step: Step, ok: bool) returns (i: nat)
    requires s.Initial() && (step, ok) in Run(s, t).ran
    ensures i < |t| && t[i] == Ran(step, ok)
  {
    if t[|t| - 1] == Ran(step, ok) {
      i := |t| - 1;
    } else {
      i := RanOrigin(s, t[..|t| - 1], step, ok);
    }
  }

  lemma TriedOrigin(s: Monitor, t: seq<Event>, step: Step) returns (i: nat)
    requires s.Initial() && Run(s, t).Tried(step)
    ensures i < |t| && t[i].Ran? && t[i].step == step
  {
    if Run(s, t).Did(step) {
      i := RanOrigin(s, t, step, true);
    } else {
      i := RanOrigin(s, t, step, false);
    }
  }

  /** Once Patroni was killed that stays known. */
  lemma {:induction false} KillStays(s: Monitor, t: seq<Event>, i: nat)
    requires i < |t| && t[i].Ran? && t[i].step == KillPatroni
    ensures Run(s, t).server.killed
  {
    if i < |t| - 1 {
      KillStays(s, t[..|t| - 1], i);
    }
  }

  lemma {:induction false} HealthOrigin(s: Monitor, t: seq<Event>, name: string) returns (h: nat, r: nat)
    requires s.Initial() && name in Run(s, t).health.healthy && name in Run(s, t).health.recovering
    ensures h < |t| && t[h] == ApiCheck(name, true)
    ensures r < |t| && t[r] == RecoveryCheck(name, true)
  {
    h := HealthyOrigin(s, t, name);
    r := RecoveringOrigin(s, t, name);
  }

  /** The lags known are those of one reading of pg_stat_replication. */
  lemma {:induction false} LagOrigin(s: Monitor, t: seq<Event>, host: string) returns (i: nat)
    requires s.Initial() && host in Run(s, t).health.lags
    ensures i < |t| && t[i] == Streaming(Run(s, t).health.lags)
  {
    if t[|t| - 1].Streaming? {
      i := |t| - 1;
    } else {
      i := LagOrigin(s, t[..|t| - 1], host);
    }
  }

  lemma {:induction false} HealthyOrigin(s: Monitor, t: seq<Event>, name: string) returns (i: nat)
    requires s.Initial() && name in Run(s, t).health.healthy
    ensures i < |t| && t[i] == ApiCheck(name, true)
  {
    if t[|t| - 1] == ApiCheck(name, true) {
      i := |t| - 1;
    } else {
      i := HealthyOrigin(s, t[..|t| - 1], name);
    }
  }

  lemma {:induction false} RecoveringOrigin(s: Monitor, t: seq<Event>, name: string) returns (i: nat)
    requires s.Initial() && name in Run(s, t).health.recovering
    ensures i < |t| && t[i] == RecoveryCheck(name, true)
  {
    if t[|t| - 1] == RecoveryCheck(name, true) {
      i := |t| - 1;
    } else {
      i := RecoveringOrigin(s, t[..|t| - 1], name);
    }
  }

  // ---- Ordering ------------------------------------------------------------------------

  /** A pg_upgrade run that ends has begun. */
  lemma ExitAfterStart(s: Monitor, t: seq<Event>, i: nat) returns (b: nat)
    requires s.Initial() && Legal(s, t) && i < |t| && t[i].PgUpgradeExit?
    ensures b < i && t[b].PgUpgradeStart? && t[b].check == t[i].check
  {
    LegalAt(s, t, i);
    b := BegunOrigin(s, t[..i], t[i].check);
  }

  /** On a primary pg_upgrade --check only begins when each other member of the first
      reading was seen streaming with little lag, healthy and in recovery. */
  lemma FitBeforeCheck(s: Monitor, t: seq<Event>, b: nat, m: Member) returns (l: nat, h: nat, v: nat)
    requires s.Initial() && s.id.role.Primary? && Legal(s, t)
    requires b < |t| && t[b].PgUpgradeStart? && t[b].check
    requires Run(s, t).dcs.first.Some? && m in Run(s, t).dcs.first.value.members && m.name != s.id.me
    ensures l < b && t[l].Streaming? && LagOk(m, t[l].lags)
    ensures h < b && t[h] == ApiCheck(m.name, true)
    ensures v < b && t[v] == RecoveryCheck(m.name, true)
  {
    LegalAt(s, t, b);
    SameIdentity(s, t[..b]);
    FirstReadStays(s, t, b);
    assert m.name in Before(s, t, b).Replicas();
    l := LagOrigin(s, t[..b], m.host);
    h, v := HealthOrigin(s, t[..b], m.name);
  }

  /** On a primary a stop comes after pg_upgrade --check, the dropping of objects, our pause,
      and a reading in which every member that had an API when we paused, and is still a member,
      reports the pause. */
  ghost predicate StopInOrder(s: Monitor, t: seq<Event>, c: nat, o: nat, w: nat, a: nat, d: nat) {
    && c < o < w < a < d < |t|
    && t[o] == Ran(DropObjects, true)
    && Before(s, t, w).dcs.lastRead.Some?
    && (t[a].ClusterRead? ==>
          forall k, n ::
            k in t[a].cluster.members && n in Before(s, t, w).dcs.lastRead.value.members && n.hasApi && n.name == k.name ==>
              k.paused)
    && t[c] == PgUpgradeExit(true, true)
    && t[w].ConfigWrite? && t[w].acked && "pause" in t[w].written && t[w].written["pause"] == Bool(true)
    && t[a].ClusterRead?
    && t[d] == Stop(true)
  }

  lemma StopsInOrder(s: Monitor, t: seq<Event>, d: nat) returns (c: nat, o: nat, w: nat, a: nat)
    requires s.Initial() && s.id.role.Primary? && Legal(s, t) && d < |t| && t[d] == Stop(true)
    ensures StopInOrder(s, t, c, o, w, a, d)
  {
    w, a := AcknowledgedBefore(s, t, d);
    c, o := CheckedBefore(s, t, w);
  }

  lemma AcknowledgedBefore(s: Monitor, t: seq<Event>, d: nat) returns (w: nat, a: nat)
    requires s.Initial() && s.id.role.Primary? && Legal(s, t) && d < |t| && t[d] == Stop(true)
    ensures w < a < d && t[w].ConfigWrite? && t[w].acked && IsPaused(t[w].written) && t[a].ClusterRead?
    ensures Before(s, t, w).dcs.lastRead.Some?
    ensures AllReport(t[a].cluster, ApiNames(Before(s, t, w).dcs.lastRead.value), true)
  {
    LegalAt(s, t, d);
    SameIdentity(s, t[..d]);
    a := AckedOrigin(s, t[..d]);
    assert t[..d][..a] == t[..a];
    LegalAt(s, t, a);
    w := OwnedOrigin(s, t[..a]);
    LegalAt(s, t, w);
    var v := AckNamesOrigin(s, t[..a]);
    assert t[..a][v] == t[v] && t[..a][..v] == t[..v];
    PausesOnce(s, t, v, w);
  }

  lemma CheckedBefore(s: Monitor, t: seq<Event>, w: nat) returns (c: nat, o: nat)
    requires s.Initial() && s.id.role.Primary? && Legal(s, t) && w < |t| && t[w].ConfigWrite? && IsPaused(t[w].written)
    ensures c < o < w && t[c] == PgUpgradeExit(true, true) && t[o] == Ran(DropObjects, true)
  {
    PauseAfterCheck(s, t, w);
    o := RanOrigin(s, t[..w], DropObjects, true);
    LegalAt(s, t, o);
    SameIdentity(s, t[..o]);
    c := CheckOrigin(s, t[..o]);
  }

  /** Our pause is only written once the check has passed. */
  lemma PauseAfterCheck(s: Monitor, t: seq<Event>, w: nat)
    requires Legal(s, t) && w < |t| && t[w].ConfigWrite? && IsPaused(t[w].written)
    ensures Before(s, t, w).server.checkOk && Before(s, t, w).pause.writes == 0 && !IsPaused(Before(s, t, w).dcs.config)
    ensures Before(s, t, w).Did(DropObjects)
  {
    LegalAt(s, t, w);
  }

  /** Every real pg_upgrade on a primary: the right binaries, and before it in
      this order the passed check, our acknowledged write of the pause, a reading
      in which the members report it, and the clean stop. */
  lemma RealUpgradeInOrder(s: Monitor, t: seq<Event>, i: nat, oldBin: string, newBin: string)
    returns (c: nat, o: nat, w: nat, a: nat, d: nat)
    requires s.Initial() && s.id.role.Primary? && Legal(s, t)
    requires i < |t| && t[i] == PgUpgradeStart(false, oldBin, newBin)
    ensures oldBin == s.id.clusterBin && newBin == s.id.desiredBin
    ensures d < i && StopInOrder(s, t, c, o, w, a, d)
  {
    LegalAt(s, t, i);
    SameIdentity(s, t[..i]);
    d := StoppedOrigin(s, t[..i]);
    c, o, w, a := StopsInOrder(s, t, d);
  }

  /** And for every replica before it: the control data of the stopped server said
      'shut down', the replica replayed that checkpoint, and rsyncd was started and
      found alive. */
  lemma ReplicaReadyBeforeUpgrade(s: Monitor, t: seq<Event>, i: nat, name: string)
    returns (d: nat, e: nat, k: nat, f: nat, p: nat)
    requires s.Initial() && s.id.role.Primary? && Legal(s, t)
    requires i < |t| && t[i].PgUpgradeStart? && !t[i].check && name in Before(s, t, i).Replicas()
    ensures d < e < k < i && t[d] == Stop(true)
    ensures t[e].ControlData? && t[e].bin == s.id.clusterBin && t[e].state == Some("shut down") && t[e].lsn.Some?
    ensures t[k].ReplayLsn? && t[k].name == name && t[e].lsn.value <= t[k].replayed
    ensures f < p < i && t[f] == RsyncdStart && t[p] == RsyncdPoll(true)
  {
    LegalAt(s, t, i);
    SameIdentity(s, t[..i]);
    e, k := CaughtUpOrigin(s, t[..i], name);
    assert t[..i][..e] == t[..e];
    d := StoppedOrigin(s, t[..e]);
    LegalAt(s, t, e);
    SameIdentity(s, t[..e]);
    f, p := AliveOrigin(s, t[..i]);
  }

  /** A replica whose rsync is known to have succeeded was told to start it, with the version
      we go to and our host, after it replayed the shutdown checkpoint, after its CHECKPOINT, and
      after the directories were switched and the configs updated, which was after the real
      pg_upgrade succeeded. */
  lemma RsyncInOrder(s: Monitor, t: seq<Event>, name: string)
    returns (k: nat, q: nat, y: nat, x: nat, f: nat, h: nat, j: nat)
    requires s.Initial() && s.id.role.Primary? && Legal(s, t) && name in Run(s, t).sync.rsyncOk
    ensures y < x < f < h < j < |t| && k < h && q < h
    ensures t[k].ReplayLsn? && t[k].name == name && t[q] == Checkpoint(name, true)
    ensures t[y] == PgUpgradeExit(false, true) && t[x] == SwitchDirs && t[f] == Ran(UpdateConfigs, true)
    ensures t[h].CopyToProgram? && t[h].name == name && t[h].version == s.id.desired && t[h].ok
    ensures Before(s, t, h).dcs.first.Some? && t[h].primary == HostOf(Before(s, t, h).dcs.first.value, s.id.me)
    ensures t[j].Feedback? && t[j].name == name && Succeeded(t[j].status)
  {
    h, j := RsyncOrigin(s, t, name);
    hide Run, Legal, Allowed, HostOf;
    k, q, f := ToldInOrder(s, t, h);
    y, x := UpdatedInOrder(s, t, f);
  }

  lemma ToldInOrder(s: Monitor, t: seq<Event>, h: nat) returns (k: nat, q: nat, f: nat)
    requires s.Initial() && Legal(s, t) && h < |t| && t[h].CopyToProgram?
    ensures k < h && q < h && f < h
    ensures t[k].ReplayLsn? && t[k].name == t[h].name && t[q] == Checkpoint(t[h].name, true) && t[f] == Ran(UpdateConfigs, true)
    ensures t[h].version == s.id.desired
    ensures Before(s, t, h).dcs.first.Some? && t[h].primary == HostOf(Before(s, t, h).dcs.first.value, s.id.me)
  {
    hide HostOf;
    LegalAt(s, t, h);
    SameIdentity(s, t[..h]);
    hide Legal, Run;
    var e;
    e, k := CaughtUpOrigin(s, t[..h], t[h].name);
    q := CheckpointedOrigin(s, t[..h], t[h].name);
    f := RanOrigin(s, t[..h], UpdateConfigs, true);
  }

  lemma UpdatedInOrder(s: Monitor, t: seq<Event>, f: nat) returns (y: nat, x: nat)
    requires s.Initial() && s.id.role.Primary? && Legal(s, t) && f < |t| && t[f] == Ran(UpdateConfigs, true)
    ensures y < x < f && t[y] == PgUpgradeExit(false, true) && t[x] == SwitchDirs
  {
    LegalAt(s, t, f);
    x := SwitchedOrigin(s, t[..f]);
    LegalAt(s, t, x);
    SameIdentity(s, t[..x]);
    y := UpgradedOrigin(s, t[..x]);
  }

  /** On a primary the end comes in its order: Patroni restarts, then the server, the extensions
      are updated, then analyze, reanalyze and call_post_bootstrap. No replica reports after
      Patroni was killed. */
  lemma EndInOrder(s: Monitor, t: seq<Event>) returns (k: nat, r: nat, e: nat, a: nat, b: nat, p: nat)
    requires s.Initial() && s.id.role.Primary? && Legal(s, t) && Run(s, t).Tried(PostBootstrap)
    ensures k < r < e < a < b < p < |t|
    ensures t[k] == Ran(KillPatroni, true) && t[r].Ran? && t[r].step == RestartPostgres
    ensures t[e].Ran? && t[e].step == UpdateExtensions && t[a].Ran? && t[a].step == Analyze
    ensures t[b].Ran? && t[b].step == Reanalyze && t[p].Ran? && t[p].step == PostBootstrap
    ensures forall j :: 0 <= j < |t| && t[j].Feedback? ==> j < k
  {
    hide Run, Legal;
    p := TriedOrigin(s, t, PostBootstrap);
    b := ComesAfter(s, t, p, Reanalyze);
    a := ComesAfter(s, t, b, Analyze);
    e := ComesAfter(s, t, a, UpdateExtensions);
    r := ComesAfter(s, t, e, RestartPostgres);
    LegalAt(s, t, r);
    k := RanOrigin(s, t[..r], KillPatroni, true);
    forall j | 0 <= j < |t| && t[j].Feedback?
      ensures j < k
    {
      LegalAt(s, t, j);
      if k < j {
        KillStays(s, t[..j], k);
      }
    }
  }

  /** A step that another one must precede. */
  lemma ComesAfter(s: Monitor, t: seq<Event>, i: nat, step: Step) returns (j: nat)
    requires s.Initial() && s.id.role.Primary? && Legal(s, t) && i < |t| && t[i].Ran?
    requires step == match t[i].step
                     case PostBootstrap => Reanalyze
                     case Reanalyze => Analyze
                     case Analyze => UpdateExtensions
                     case UpdateExtensions => RestartPostgres
                     case _ => step
    requires t[i].step in {PostBootstrap, Reanalyze, Analyze, UpdateExtensions}
    ensures j < i && t[j].Ran? && t[j].step == step
  {
    LegalAt(s, t, i);
    SameIdentity(s, t[..i]);
    j := TriedOrigin(s, t[..i], step);
  }

  // ---- The pause -------------------------------------------------------------------------

  /** A write of ours flips "pause" in the config it replaces and keeps the rest. */
  lemma WritesOnlyPause(s: Monitor, t: seq<Event>, i: nat)
    requires Legal(s, t) && i < |t| && t[i].ConfigWrite?
    ensures
      var before := Before(s, t, i).dcs.config;
      IsPaused(t[i].written) == !IsPaused(before) && t[i].written - {"pause"} == before - {"pause"}
  {
    LegalAt(s, t, i);
  }

  predicate Pauses(e: Event) {
    e.ConfigWrite? && IsPaused(e.written)
  }

  predicate Resumes(e: Event) {
    e.ConfigWrite? && !IsPaused(e.written)
  }

  lemma {:induction false} WritesCounted(s: Monitor, t: seq<Event>, i: nat)
    requires s.Initial() && i < |t| && Pauses(t[i])
    ensures Run(s, t).pause.writes > 0
  {
    if i < |t| - 1 {
      WritesCounted(s, t[..|t| - 1], i);
    }
  }

  /** The run writes a pause at most once. */
  lemma PausesOnce(s: Monitor, t: seq<Event>, i: nat, j: nat)
    requires s.Initial() && Legal(s, t) && i < |t| && j < |t| && Pauses(t[i]) && Pauses(t[j])
    ensures i == j
  {
    if i < j {
      PauseAfterCheck(s, t, j);
      WritesCounted(s, t[..j], i);
    } else if j < i {
      PauseAfterCheck(s, t, i);
      WritesCounted(s, t[..i], j);
    }
  }

  /** It resumes only after its own acknowledged pause, and not again after an
      acknowledged resume. The pause it lifts is the config it wrote itself,
      unless another writer came in between. */
  lemma ResumesOwnPause(s: Monitor, t: seq<Event>, j: nat) returns (i: nat)
    requires s.Initial() && Legal(s, t) && j < |t| && Resumes(t[j])
    ensures i < j && OwnsSince(t[..j], i)
    ensures (forall k :: i < k < j ==> !t[k].OtherWrite? && !t[k].ConfigWrite?) ==> Before(s, t, j).dcs.config == t[i].written
  {
    LegalAt(s, t, j);
    i := OwnedOrigin(s, t[..j]);
    assert t[..j][i] == t[i];
    if forall k :: i < k < j ==> !t[k].OtherWrite? && !t[k].ConfigWrite? {
      UnwrittenSince(s, t[..j], i);
    }
  }

  lemma {:induction false} UnwrittenSince(s: Monitor, t: seq<Event>, i: nat)
    requires i < |t| && t[i].ConfigWrite?
    requires forall k :: i < k < |t| ==> !t[k].OtherWrite? && !t[k].ConfigWrite?
    ensures Run(s, t).dcs.config == t[i].written
  {
    if i < |t| - 1 {
      UnwrittenSince(s, t[..|t| - 1], i);
    }
  }

  /** A run writes nothing exactly as long as it has counted no pause of its own. */
  lemma NoPauseNoWrite(s: Monitor, t: seq<Event>)
    requires s.Initial() && Legal(s, t)
    ensures Run(s, t).pause.writes == 0 <==> forall j :: 0 <= j < |t| ==> !t[j].ConfigWrite?
  {
    if Run(s, t).pause.writes == 0 {
      forall j | 0 <= j < |t|
        ensures !t[j].ConfigWrite?
      {
        if t[j].ConfigWrite? {
          var i := j;
          if Resumes(t[j]) {
            i := ResumesOwnPause(s, t, j);
          }
          assert Pauses(t[i]);
          WritesCounted(s, t, i);
        }
      }
    } else {
      var i := CountedOrigin(s, t);
    }
  }

  lemma {:induction false} CountedOrigin(s: Monitor, t: seq<Event>) returns (i: nat)
    requires s.Initial() && Run(s, t).pause.writes > 0
    ensures i < |t| && Pauses(t[i])
  {
    if Pauses(t[|t| - 1]) {
      i := |t| - 1;
    } else {
      i := CountedOrigin(s, t[..|t| - 1]);
    }
  }

  // ---- Whose pause it is ---------------------------------------------------------------

  /** No other writer changed the config between i and j. */
  predicate NoOthersBetween(t: seq<Event>, i: nat, j: nat)
    requires j <= |t|
  {
    forall k :: i < k < j ==> !t[k].OtherWrite?
  }

  /** The pause that a resume lifts is the one the run wrote exactly when no other writer
      came in between, which the version of the config tells. */
  lemma LiftedPauseIsOwn(s: Monitor, t: seq<Event>, j: nat) returns (i: nat)
    requires s.Initial() && Legal(s, t) && j < |t| && Resumes(t[j])
    ensures i < j && OwnsSince(t[..j], i) && Pauses(t[i])
    ensures NoOthersBetween(t, i, j) <==> Before(s, t, j).dcs.version == Before(s, t, i).dcs.version + 1
    ensures NoOthersBetween(t, i, j) ==> Before(s, t, j).dcs.config == t[i].written
  {
    i := ResumesOwnPause(s, t, j);
    assert t[..j][i] == t[i] && t[..j][..i] == t[..i];
    LegalAt(s, t, j);
    if NoOthersBetween(t, i, j) {
      OnlyOnceBetween(s, t, i, j);
      VersionSince(s, t[..j], i);
    } else {
      var k :| i < k < j && t[k].OtherWrite?;
      VersionGrows(s, t[..j], i, k);
    }
  }

  /** Between our acknowledged pause and a resume, with no other writer, we do not write:
      the resume would not find the cluster paused. */
  lemma OnlyOnceBetween(s: Monitor, t: seq<Event>, i: nat, j: nat)
    requires s.Initial() && Legal(s, t) && i < j < |t| && Resumes(t[j]) && Pauses(t[i]) && NoOthersBetween(t, i, j)
    ensures forall k :: i < k < j ==> !t[k].ConfigWrite?
  {
    if exists k :: i < k < j && t[k].ConfigWrite? {
      var k := LastWrite(t[..j], i);
      assert t[..j][k] == t[k] && t[..j][..k] == t[..k];
      if Pauses(t[k]) {
        PausesOnce(s, t, i, k);
      }
      UnwrittenSince(s, t[..j], k);
      LegalAt(s, t, j);
    }
  }

  lemma {:induction false} LastWrite(t: seq<Event>, i: int) returns (k: nat)
    requires i >= -1 && exists j :: i < j < |t| && t[j].ConfigWrite?
    ensures i < k < |t| && t[k].ConfigWrite? && forall j :: k < j < |t| ==> !t[j].ConfigWrite?
  {
    if t[|t| - 1].ConfigWrite? {
      k := |t| - 1;
    } else {
      k := LastWrite(t[..|t| - 1], i);
    }
  }

  lemma {:induction false} VersionSince(s: Monitor, t: seq<Event>, i: nat)
    requires i < |t| && t[i].ConfigWrite?
    requires forall k :: i < k < |t| ==> !t[k].OtherWrite? && !t[k].ConfigWrite?
    ensures Run(s, t).dcs.version == Before(s, t, i).dcs.version + 1 && Run(s, t).dcs.config == t[i].written
  {
    if i < |t| - 1 {
      VersionSince(s, t[..|t| - 1], i);
      assert t[..|t| - 1][..i] == t[..i];
    }
  }

  /** Two writes make the version grow by two. */
  lemma {:induction false} VersionGrows(s: Monitor, t: seq<Event>, i: nat, k: nat)
    requires i < k < |t| && t[i].ConfigWrite? && t[k].OtherWrite?
    ensures Run(s, t).dcs.version >= Before(s, t, i).dcs.version + 2
  {
    if k == |t| - 1 {
      VersionMonotone(s, t[..k], i);
      assert t[..k][..i] == t[..i];
    } else {
      VersionGrows(s, t[..|t| - 1], i, k);
      assert t[..|t| - 1][..i] == t[..i];
    }
  }

  lemma {:induction false} VersionMonotone(s: Monitor, t: seq<Event>, i: nat)
    requires i < |t| && t[i].ConfigWrite?
    ensures Run(s, t).dcs.version >= Before(s, t, i).dcs.version + 1
  {
    if i < |t| - 1 {
      VersionMonotone(s, t[..|t| - 1], i);
      assert t[..|t| - 1][..i] == t[..i];
    }
  }

  /** A run that ends without owning its pause has lifted whatever pause it found last:
      its own exactly when no other writer came in between. */
  lemma LiftsWhatItFinds(s: Monitor, t: seq<Event>, i: nat) returns (j: nat)
    requires s.Initial() && Legal(s, t) && i < |t| && Pauses(t[i]) && t[i].acked && !Run(s, t).pause.owned
    ensures i < j < |t| && Resumes(t[j]) && t[j].acked && IsPaused(Before(s, t, j).dcs.config)
    ensures NoOthersBetween(t, i, j) <==> Before(s, t, j).dcs.version == Before(s, t, i).dcs.version + 1
  {
    j := ReleasedAt(s, t, i);
    LegalAt(s, t, j);
    if Pauses(t[j]) {
      PausesOnce(s, t, i, j);
    }
    var k := LiftedPauseIsOwn(s, t, j);
    PausesOnce(s, t, i, k);
  }

  lemma {:induction false} ReleasedAt(s: Monitor, t: seq<Event>, i: nat) returns (j: nat)
    requires i < |t| && t[i].ConfigWrite? && t[i].acked && IsPaused(t[i].written) && !Run(s, t).pause.owned
    ensures i < j < |t| && t[j].ConfigWrite? && t[j].acked && !IsPaused(t[j].written)
  {
    var e := t[|t| - 1];
    if e.ConfigWrite? && e.acked {
      j := |t| - 1;
    } else {
      j := ReleasedAt(s, t[..|t| - 1], i);
    }
  }

  function OthersOnly(t: seq<Event>): seq<Event> {
    if t == [] then []
    else
      var rest := OthersOnly(t[..|t| - 1]);
      if t[|t| - 1].OtherWrite? then rest + [t[|t| - 1]] else rest
  }

  /** On every key but "pause" the config ends as if we had never written. */
  lemma {:induction false} OtherKeysUntouched(s: Monitor, t: seq<Event>)
    requires Legal(s, t)
    ensures Run(s, t).dcs.config - {"pause"} == Run(s, OthersOnly(t)).dcs.config - {"pause"}
  {
    hide Allowed, Observe;
    if t != [] {
      var e, u := t[|t| - 1], t[..|t| - 1];
      OtherKeysUntouched(s, u);
      OtherKeysStep(Run(s, u), e);
      if e.OtherWrite? {
        RunAppend(s, OthersOnly(u), e);
        OtherKeysStep(Run(s, OthersOnly(u)), e);
      }
    }
  }

  /** One event: another writer sets the config, and we at most flip "pause". */
  lemma OtherKeysStep(m: Monitor, e: Event)
    requires Allowed(m, e)
    ensures
      var after := Observe(m, e).dcs.config;
      if e.OtherWrite? then after == e.written else after - {"pause"} == m.dcs.config - {"pause"}
  {
    if e.ConfigWrite? {
      var p := Bool(!IsPaused(m.dcs.config));
      assert m.dcs.config["pause" := p] - {"pause"} == m.dcs.config - {"pause"};
    }
  }

  /** With no other writer and every write of ours acknowledged, the cluster is
      paused exactly while the run owns the pause. */
  lemma {:induction false} PausedIffOwned(s: Monitor, t: seq<Event>)
    requires s.Initial() && !IsPaused(s.dcs.config) && Legal(s, t)
    requires forall i :: 0 <= i < |t| ==> !t[i].OtherWrite? && (t[i].ConfigWrite? ==> t[i].acked)
    ensures IsPaused(Run(s, t).dcs.config) <==> Run(s, t).pause.owned
  {
    if t != [] {
      PausedIffOwned(s, t[..|t| - 1]);
    }
  }

  /** Whatever is lost, with no other writer a cluster that stays paused is either
      still owned by the run or paused by a write whose answer got lost. */
  lemma {:induction false} StuckPauseExplained(s: Monitor, t: seq<Event>)
    requires s.Initial() && !IsPaused(s.dcs.config) && Legal(s, t)
    requires forall i :: 0 <= i < |t| ==> !t[i].OtherWrite?
    requires IsPaused(Run(s, t).dcs.config)
    ensures Run(s, t).pause.owned || exists i :: 0 <= i < |t| && Pauses(t[i]) && !t[i].acked
  {
    var e, u := t[|t| - 1], t[..|t| - 1];
    if e.ConfigWrite? {
      assert Pauses(t[|t| - 1]);
    } else {
      StuckPauseExplained(s, u);
      if !Run(s, u).pause.owned {
        var i :| 0 <= i < |u| && Pauses(u[i]) && !u[i].acked;
        assert Pauses(t[i]) && !t[i].acked;
      }
    }
  }

  lemma LegalStep(s: Monitor, t: seq<Event>, m: Monitor, e: Event) returns (n: Monitor)
    requires Legal(s, t) && m == Run(s, t) && Allowed(m, e)
    ensures Legal(s, t + [e]) && n == Run(s, t + [e]) == Observe(m, e)
  {
    RunAppend(s, t, e);
    n := Run(s, t + [e]);
  }

  /** The cluster of a single member, as it is read. */
  function Alone(me: string, host: string, config: Config, version: nat, initialize: string): Cluster {
    Cluster([Member(me, host, true, 0, IsPaused(config))], config, version, Some(initialize), Some(me))
  }

  /** What do_upgrade records on a primary on its own up to the passed check: its reading,
      the replication query, initdb with its parameters and pg_upgrade --check, with the steps
      around them. */
  function CheckEvents(s: Monitor, first: Cluster, lags: map<string, int>, p: Parameters): seq<Event> {
    [Ran(CheckPrimary, true)] + [ClusterRead(first)] + [Streaming(lags)]
    + [Ran(ReadLocale, true)] + [InitDb(p)] + [Ran(CopyConfigs, true)] + [Ran(Configure, true)]
    + [Ran(DropExtensions, true)] + [Ran(MakeScratch, true)]
    + [PgUpgradeStart(true, s.id.clusterBin, s.id.desiredBin)] + [PgUpgradeExit(true, true)] + [Ran(RemoveScratch, true)]
  }

  /** And then toggle_pause: its own reading, its write and the reading that finds it
      acknowledged. */
  function PauseEvents(s: Monitor, host: string, lags: map<string, int>, p: Parameters, initialize: string): seq<Event> {
    var first := Alone(s.id.me, host, s.dcs.config, 0, initialize);
    var on := s.dcs.config["pause" := Bool(true)];
    CheckEvents(s, first, lags, p) + [Ran(DropObjects, true)]
    + [ClusterRead(first)] + [ConfigWrite(on, true)] + [ClusterRead(Alone(s.id.me, host, on, 1, initialize))]
  }

  /** The state after these events, but for the steps run. */
  function Checked(s: Monitor, first: Cluster, lags: map<string, int>): Monitor {
    s.(dcs := Dcs(s.dcs.config, 0, Some(first), Some(first)),
       health := s.health.(lags := lags),
       server := s.server.(begun := {true}, checkOk := true))
  }

  lemma CheckCanPass(s: Monitor, first: Cluster, lags: map<string, int>, p: Parameters)
    requires s.Initial() && first.config == s.dcs.config && first.version == 0
    requires forall m :: m in first.members ==> m.name == s.id.me
    ensures Legal(s, CheckEvents(s, first, lags, p))
    ensures
      Run(s, CheckEvents(s, first, lags, p))
      == Checked(s, first, lags).(ran := Run(s, CheckEvents(s, first, lags, p)).ran)
  {
    hide Run, Legal, Allowed, Observe;
    var t, m := ReadingCanPass(s, first, lags);
    t, m := PreparationCanPass(s, t, m, p);
    t, m := ProgramCanPass(s, t, m);
  }

  lemma ReadingCanPass(s: Monitor, first: Cluster, lags: map<string, int>) returns (t: seq<Event>, m: Monitor)
    requires s.Initial() && first.config == s.dcs.config && first.version == 0
    ensures t == [Ran(CheckPrimary, true)] + [ClusterRead(first)] + [Streaming(lags)]
    ensures Legal(s, t) && m == Run(s, t) && m.Did(CheckPrimary)
    ensures m == s.(dcs := Dcs(s.dcs.config, 0, Some(first), Some(first)), health := s.health.(lags := lags), ran := m.ran)
  {
    t := [Ran(CheckPrimary, true)];
    assert Legal(s, []) && Run(s, []) == s;
    hide Run, Legal;
    m := LegalStep(s, [], s, Ran(CheckPrimary, true));
    assert [] + t == t;
    m := LegalStep(s, t, m, ClusterRead(first));
    t := t + [ClusterRead(first)];
    m := LegalStep(s, t, m, Streaming(lags));
    t := t + [Streaming(lags)];
  }

  lemma ProgramCanPass(s: Monitor, t: seq<Event>, m: Monitor) returns (u: seq<Event>, n: Monitor)
    requires Legal(s, t) && m == Run(s, t) && m.id == s.id && ReplicasFit(m) && m.Did(DropExtensions)
    ensures u == t + [PgUpgradeStart(true, s.id.clusterBin, s.id.desiredBin)] + [PgUpgradeExit(true, true)]
                 + [Ran(RemoveScratch, true)]
    ensures Legal(s, u) && n == Run(s, u)
    ensures n == m.(server := m.server.(begun := m.server.begun + {true}, checkOk := true), ran := n.ran)
  {
    hide Run, Legal;
    var b := PgUpgradeStart(true, s.id.clusterBin, s.id.desiredBin);
    n := LegalStep(s, t, m, b);
    u := t + [b];
    n := LegalStep(s, u, n, PgUpgradeExit(true, true));
    u := u + [PgUpgradeExit(true, true)];
    n := LegalStep(s, u, n, Ran(RemoveScratch, true));
    u := u + [Ran(RemoveScratch, true)];
  }

  /** And then the objects dropped and toggle_pause up to its write. */
  lemma PauseCanPass(s: Monitor, first: Cluster, lags: map<string, int>, p: Parameters, acked: bool)
    returns (t: seq<Event>, m: Monitor)
    requires s.Initial() && s.id.role.Primary? && first.config == s.dcs.config && first.version == 0 && !IsPaused(s.dcs.config)
    requires forall k :: k in first.members ==> k.name == s.id.me
    ensures
      var on := s.dcs.config["pause" := Bool(true)];
      && t == CheckEvents(s, first, lags, p) + [Ran(DropObjects, true)] + [ClusterRead(first)] + [ConfigWrite(on, acked)]
      && Legal(s, t) && m == Run(s, t)
      && m == Checked(s, first, lags)
              .(dcs := Dcs(on, 1, Some(first), Some(first)),
                pause := Pause(1, acked, ApiNames(first), false, ApiNames(first)), ran := m.ran)
  {
    var on := s.dcs.config["pause" := Bool(true)];
    CheckCanPass(s, first, lags, p);
    hide Run, Legal, CheckEvents;
    t := CheckEvents(s, first, lags, p);
    m := ObjectsCanBeDropped(s, t, Run(s, t));
    t := t + [Ran(DropObjects, true)];
    m := LegalStep(s, t, m, ClusterRead(first));
    t := t + [ClusterRead(first)];
    m := LegalStep(s, t, m, ConfigWrite(on, acked));
    t := t + [ConfigWrite(on, acked)];
  }

  lemma ObjectsCanBeDropped(s: Monitor, t: seq<Event>, m: Monitor) returns (n: Monitor)
    requires Legal(s, t) && m == Run(s, t) && m.server.checkOk && !m.server.stopped && m.id.role.Primary?
    ensures Legal(s, t + [Ran(DropObjects, true)])
    ensures n == Run(s, t + [Ran(DropObjects, true)]) == m.(ran := n.ran) && n.Did(DropObjects)
  {
    n := LegalStep(s, t, m, Ran(DropObjects, true));
  }

  /** The steps of prepare_new_pgdata and up to the program pg_upgrade. */
  lemma PreparationCanPass(s: Monitor, t: seq<Event>, m: Monitor, p: Parameters) returns (u: seq<Event>, n: Monitor)
    requires Legal(s, t) && m == Run(s, t) && m.Did(CheckPrimary)
    ensures u == t + [Ran(ReadLocale, true)] + [InitDb(p)] + [Ran(CopyConfigs, true)] + [Ran(Configure, true)]
                 + [Ran(DropExtensions, true)] + [Ran(MakeScratch, true)]
    ensures Legal(s, u) && n == Run(s, u) == m.(ran := n.ran) && n.Did(DropExtensions)
  {
    hide Run, Legal;
    n := LegalStep(s, t, m, Ran(ReadLocale, true));
    u := t + [Ran(ReadLocale, true)];
    n := LegalStep(s, u, n, InitDb(p));
    u := u + [InitDb(p)];
    n := LegalStep(s, u, n, Ran(CopyConfigs, true));
    u := u + [Ran(CopyConfigs, true)];
    n := LegalStep(s, u, n, Ran(Configure, true));
    u := u + [Ran(Configure, true)];
    n := LegalStep(s, u, n, Ran(DropExtensions, true));
    u := u + [Ran(DropExtensions, true)];
    n := LegalStep(s, u, n, Ran(MakeScratch, true));
    u := u + [Ran(MakeScratch, true)];
  }

  lemma PauseCanBeOwned(s: Monitor, host: string, lags: map<string, int>, p: Parameters, initialize: string)
    requires s.Initial() && s.id.role.Primary? && !IsPaused(s.dcs.config)
    ensures
      var t := PauseEvents(s, host, lags, p, initialize);
      var m := Run(s, t);
      && Legal(s, t) && m.pause.owned && m.pause.acked
      && m.server.checkOk && !m.server.stopped && m.id == s.id && m.dcs.version == 1
  {
    var first := Alone(s.id.me, host, s.dcs.config, 0, initialize);
    var on := s.dcs.config["pause" := Bool(true)];
    var t, m := PauseCanPass(s, first, lags, p, true);
    hide Run, Legal, CheckEvents;
    m := LegalStep(s, t, m, ClusterRead(Alone(s.id.me, host, on, 1, initialize)));
  }

  /** The limit of pause ownership, at an input: the stop fails, another writer has put a
      config of its own in place that is paused, and post_cleanup reads it, lifts its pause
      and finds that acknowledged. */
  lemma ForeignPauseCanBeLifted(s: Monitor, host: string, lags: map<string, int>, p: Parameters, initialize: string,
                                theirs: Config)
    requires s.Initial() && s.id.role.Primary? && !IsPaused(s.dcs.config) && IsPaused(theirs)
    ensures
      var off := theirs["pause" := Bool(false)];
      var t := PauseEvents(s, host, lags, p, initialize) + [Stop(false)] + [OtherWrite(theirs)]
               + [ClusterRead(Alone(s.id.me, host, theirs, 2, initialize))] + [ConfigWrite(off, true)]
               + [ClusterRead(Alone(s.id.me, host, off, 3, initialize))];
      Legal(s, t) && !Run(s, t).pause.owned && Run(s, t).dcs.config == off
  {
    var off := theirs["pause" := Bool(false)];
    var t := PauseEvents(s, host, lags, p, initialize);
    PauseCanBeOwned(s, host, lags, p, initialize);
    hide Run, Legal, PauseEvents;
    var m := LegalStep(s, t, Run(s, t), Stop(false));
    t := t + [Stop(false)];
    m := LegalStep(s, t, m, OtherWrite(theirs));
    t := t + [OtherWrite(theirs)];
    m := LegalStep(s, t, m, ClusterRead(Alone(s.id.me, host, theirs, 2, initialize)));
    t := t + [ClusterRead(Alone(s.id.me, host, theirs, 2, initialize))];
    m := LegalStep(s, t, m, ConfigWrite(off, true));
    t := t + [ConfigWrite(off, true)];
    m := LegalStep(s, t, m, ClusterRead(Alone(s.id.me, host, off, 3, initialize)));
  }

  // ---- The end of a run -------------------------------------------------------------------

  /** A pause of ours was applied, but the answer was lost. */
  predicate LostPause(t: seq<Event>) {
    exists i :: 0 <= i < |t| && Pauses(t[i]) && !t[i].acked
  }

  predicate NoOthers(t: seq<Event>) {
    forall i :: 0 <= i < |t| ==> !t[i].OtherWrite?
  }

  /** With no other writer a cluster that was not paused ends paused exactly when a pause was
      written and no resume. */
  lemma EndsPausedIff(s: Monitor, t: seq<Event>)
    requires s.Initial() && !IsPaused(s.dcs.config) && Legal(s, t) && NoOthers(t)
    ensures IsPaused(Run(s, t).dcs.config)
            <==> (exists i :: 0 <= i < |t| && Pauses(t[i])) && forall j :: 0 <= j < |t| ==> !Resumes(t[j])
  {
    if exists i :: 0 <= i < |t| && t[i].ConfigWrite? {
      var i := LastWrite(t, -1);
      VersionSince(s, t, i);
      if !Resumes(t[i]) {
        forall j | 0 <= j < |t|
          ensures !Resumes(t[j])
        {
          if Resumes(t[j]) {
            var k := ResumesOwnPause(s, t, j);
            PausesOnce(s, t, i, k);
          }
        }
      }
    } else {
      NeverWritten(s, t);
    }
  }

  lemma {:induction false} NeverWritten(s: Monitor, t: seq<Event>)
    requires forall i :: 0 <= i < |t| ==> !t[i].ConfigWrite? && !t[i].OtherWrite?
    ensures Run(s, t).dcs.config == s.dcs.config
  {
    if t != [] {
      NeverWritten(s, t[..|t| - 1]);
    }
  }

  /** At an input: the pause of a single-member primary is applied but its answer lost, and
      the run, which does not own it, leaves it behind. */
  lemma LostAnswerLeavesPause(s: Monitor, host: string, lags: map<string, int>, p: Parameters, initialize: string)
    requires s.Initial() && s.id.role.Primary? && !IsPaused(s.dcs.config)
    ensures
      var first := Alone(s.id.me, host, s.dcs.config, 0, initialize);
      var on := s.dcs.config["pause" := Bool(true)];
      var t := CheckEvents(s, first, lags, p) + [Ran(DropObjects, true)] + [ClusterRead(first)] + [ConfigWrite(on, false)];
      Legal(s, t) && !Run(s, t).pause.owned && Run(s, t).dcs.config == on && IsPaused(on)
  {
    var first := Alone(s.id.me, host, s.dcs.config, 0, initialize);
    var t, m := PauseCanPass(s, first, lags, p, false);
  }

  /** With no other writer, a cluster that was not paused ends paused only if the answer to
      our pause was lost, or the attempt to lift it, which is the last event, did not reach
      the DCS. What try_upgrade promises about a pause it still owns is the hypothesis. */
  lemma EndsUnpaused(s: Monitor, t: seq<Event>)
    requires s.Initial() && !IsPaused(s.dcs.config) && Legal(s, t) && NoOthers(t)
    requires Run(s, t).pause.owned ==> t != [] && ResumeFailed(t[|t| - 1])
    ensures IsPaused(Run(s, t).dcs.config) ==>
              LostPause(t) || (t != [] && (t[|t| - 1].ClusterReadFailed? || t[|t| - 1].ConfigWriteFailed?))
  {
    if IsPaused(Run(s, t).dcs.config) && !LostPause(t) {
      StuckPauseExplained(s, t);
      var n := |t| - 1;
      LegalAt(s, t, n);
    }
  }
}
