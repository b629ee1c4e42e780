/**
 The vocabulary of a major upgrade: the shared cluster state, the events a run
 exchanges with its environment, and a monitor that folds a trace of events
 into what is known so far.

 `Allowed` says which event may come next. A trace is `Legal` when every event
 was allowed by the monitor of the events before it. The imperative classes are
 proved to produce only legal traces; ProtocolTheorems says what that means.
 */
module Protocol {
  import opened Wrappers
  import opened ServerParameters

  // ---- Cluster state in the DCS ------------------------------------------

  datatype Value = Bool(b: bool) | Other(text: string)

  type Config = map<string, Value>

  predicate IsPaused(c: Config) {
    "pause" in c && c["pause"] == Bool(true)
  }

  datatype Member = Member(name: string, host: string, hasApi: bool, index: nat, paused: bool)

  datatype Cluster = Cluster(
    members: seq<Member>,
    config: Config,
    version: nat,
    initialize: Option<string>,
    leader: Option<string>)

  function Names(c: Cluster): set<string> {
    set m | m in c.members :: m.name
  }

  /** The members that can acknowledge a pause. */
  function ApiNames(c: Cluster): set<string> {
    set m | m in c.members && m.hasApi :: m.name
  }

  /** Every member of c that is among `names` reports the pause state p. */
  predicate AllReport(c: Cluster, names: set<string>, p: bool) {
    forall m :: m in c.members && m.name in names ==> m.paused == p
  }

  function OtherNames(c: Cluster, me: string): set<string> {
    set m | m in c.members && m.name != me :: m.name
  }

  /** cluster.get_member(name).conn_kwargs().get('host') */
  function HostOf(c: Cluster, name: string): Option<string> {
    HostAmong(c.members, name)
  }

  function HostAmong(members: seq<Member>, name: string): Option<string> {
    if members == [] then None
    else if members[0].name == name then Some(members[0].host)
    else HostAmong(members[1..], name)
  }

  // ---- Events ------------------------------------------------------------

  /** Steps without effect on the rest of the model. */
  datatype Step =
    | CheckPrimary           // is_running and is_primary
    | ReadLocale             // and the checksum setting
    | CopyConfigs            // into the new directory
    | Configure              // configure_server_parameters
    | DropExtensions
    | DropObjects
    | MakeScratch            // the directory pg_upgrade runs in
    | RemoveScratch
    | WriteRsyncd            // the configs of rsyncd
    | RemoveRsyncd
    | UpdateConfigs
    | CancelInitialization   // remove the initialize key
    | KillPatroni
    | RestartPostgres
    | UpdateExtensions
    | RecreateExtensions
    | Analyze
    | AwaitReplicas
    | Reanalyze
    | PostBootstrap
    | AwaitRecovery
    | StartPostgres
    | Rsync
    | AwaitPrimary
    | RemoveRecoveryConf

  /** The polling loops. */
  datatype Loop = PauseLoop(p: bool) | ReplayLoop | FeedbackLoop | KeyLoop | ApiLoop

  datatype Role = Primary | Replica | Recovery

  datatype Event =
    | ClusterRead(cluster: Cluster)
    | ClusterReadFailed
    | ConfigWrite(written: Config, acked: bool)                 // our compare-and-set was applied
    | ConfigWriteFailed(attempted: Config, expected: nat)       // our compare-and-set was not applied
    | OtherWrite(written: Config)                               // another writer changed the config
    | Streaming(lags: map<string, int>)                         // pg_stat_replication: address -> lag
    | ApiCheck(name: string, healthy: bool)
    | RecoveryCheck(name: string, inRecovery: bool)
    | PgUpgradeStart(check: bool, oldBin: string, newBin: string)
    | PgUpgradeExit(check: bool, ok: bool)
    | Stop(ok: bool)
    | ControlData(bin: string, state: Option<string>, lsn: Option<nat>)
    | RsyncdStart
    | RsyncdPoll(alive: bool)
    | RsyncdKill(ok: bool)
    | ReplayLsn(name: string, replayed: nat)
    | Checkpoint(name: string, ok: bool)
    | CopyToProgram(name: string, version: string, primary: Option<string>, ok: bool)   // tells a replica to rsync
    | Feedback(name: string, status: string)                    // rsync exit status file of a replica
    | NoFeedback(name: string)                                  // which is not there yet
    | SwitchDirs                                                // switch_pgdata begins
    | SwitchDirsBack                                            // switch_back_pgdata begins
    | InitDb(parameters: Parameters)
    | Bootstrap(parameters: Parameters, config: Method, ok: bool)   // starts a recovery
    | Ran(step: Step, ok: bool)
    | TimedOut(loop: Loop)
    | CallFailed                                                // a query or call raised

  const MAX_LAG := 16 * 1024 * 1024

  predicate LagOk(m: Member, lags: map<string, int>) {
    m.host in lags && lags[m.host] <= MAX_LAG
  }

  /** Every member but me streams with an acceptable lag. */
  predicate LagsOk(members: seq<Member>, me: string, lags: map<string, int>) {
    forall m :: m in members && m.name != me ==> LagOk(m, lags)
  }

  /** Stuck is one that could not be killed. */
  datatype Rsyncd = Absent | Running | Alive | Stuck

  /** Who we are, which version we go to, and which binaries belong to the two versions. */
  datatype Identity = Identity(role: Role, me: string, clusterBin: string, desiredBin: string, desired: string)

  /** The shared config, and the cluster as first and as last seen. */
  datatype Dcs = Dcs(config: Config, version: nat, first: Option<Cluster>, lastRead: Option<Cluster>)

  /** Our pause: how often written, whether it is ours to lift, who must
      acknowledge it and whether they have; and who was to acknowledge our last write. */
  datatype Pause = Pause(writes: nat, owned: bool, ackNames: set<string>, acked: bool, waitNames: set<string>)

  const NO_PAUSE := Pause(0, false, {}, false, {})

  /** What the replicas looked like before the upgrade. */
  datatype Health = Health(lags: map<string, int>, healthy: set<string>, recovering: set<string>)

  /** How far the server itself is; begun are the kinds of pg_upgrade run so far
      (true for a check), and killed says that Patroni was to restart. */
  datatype Server = Server(checkOk: bool, stopped: bool, upgraded: bool, switched: bool, begun: set<bool>, killed: bool)

  /** How far the replicas have followed; behind and silent are those last seen short of the
      checkpoint and without a feedback file. */
  datatype Sync = Sync(
    checkpointLsn: Option<nat>,
    caughtUp: set<string>,
    behind: set<string>,
    rsyncd: Rsyncd,
    checkpointed: set<string>,
    notified: set<string>,
    silent: set<string>,
    rsyncOk: set<string>)

  const NO_SYNC := Sync(None, {}, {}, Absent, {}, {}, {}, {})

  /** ran are the steps so far, with how they ended. */
  datatype Monitor = Monitor(
    id: Identity, dcs: Dcs, pause: Pause, health: Health, server: Server, sync: Sync, ran: set<(Step, bool)>)
  {
    /** The cluster members that must follow us, as first seen. */
    function Replicas(): set<string> {
      if dcs.first.Some? then OtherNames(dcs.first.value, id.me) else {}
    }

    /** Nothing has happened yet. */
    predicate Initial() {
      && dcs.version == 0 && dcs.first.None? && dcs.lastRead.None?
      && pause == NO_PAUSE
      && health == Health(map[], {}, {})
      && server == Server(false, false, false, false, {}, false)
      && sync == NO_SYNC && ran == {}
    }

    predicate Did(step: Step) {
      (step, true) in ran
    }

    predicate Tried(step: Step) {
      (step, true) in ran || (step, false) in ran
    }
  }

  predicate Succeeded(status: string) {
    |status| > 0 && status[0] == '0'
  }

  function Mark(s: set<string>, name: string, yes: bool): set<string> {
    if yes then s + {name} else s - {name}
  }

  function ObserveDcs(d: Dcs, e: Event): Dcs {
    match e
    case ClusterRead(c) => d.(first := if d.first.None? then Some(c) else d.first, lastRead := Some(c))
    case ConfigWrite(after, _) => d.(config := after, version := d.version + 1)
    case OtherWrite(after) => d.(config := after, version := d.version + 1)
    // what was read before Patroni restarts is out of date
    case Ran(KillPatroni, true) => d.(lastRead := None)
    case _ => d
  }

  function ObservePause(p: Pause, d: Dcs, e: Event): Pause {
    match e
    case ClusterRead(c) => p.(acked := p.acked || (p.owned && AllReport(c, p.ackNames, true)))
    case ConfigWrite(after, acked) =>
      Pause(
        if IsPaused(after) then p.writes + 1 else p.writes,
        if acked then IsPaused(after) else p.owned,
        if IsPaused(after) && d.lastRead.Some? then ApiNames(d.lastRead.value) else p.ackNames,
        false,
        if d.lastRead.Some? then ApiNames(d.lastRead.value) else {})
    case _ => p
  }

  function ObserveHealth(h: Health, e: Event): Health {
    match e
    case Streaming(lags) => h.(lags := lags)
    case ApiCheck(name, ok) => h.(healthy := Mark(h.healthy, name, ok))
    case RecoveryCheck(name, ok) => h.(recovering := Mark(h.recovering, name, ok))
    case _ => h
  }

  function ObserveServer(s: Server, e: Event): Server {
    match e
    case PgUpgradeStart(check, _, _) => s.(begun := s.begun + {check})
    case PgUpgradeExit(check, ok) => if check then s.(checkOk := ok) else s.(upgraded := ok)
    case Stop(ok) => s.(stopped := ok)
    case SwitchDirs => s.(switched := true)
    case SwitchDirsBack => s.(switched := false)
    case Ran(KillPatroni, _) => s.(killed := true)
    case _ => s
  }

  function ObserveSync(y: Sync, s: Server, e: Event): Sync {
    match e
    case ControlData(_, state, lsn) =>
      y.(checkpointLsn := if s.stopped && state == Some("shut down") then lsn else None, caughtUp := {}, behind := {})
    case RsyncdStart => y.(rsyncd := Running)
    case RsyncdPoll(alive) =>
      y.(rsyncd := if y.rsyncd.Absent? || y.rsyncd.Stuck? then y.rsyncd else if alive then Alive else Running)
    case RsyncdKill(ok) => y.(rsyncd := if ok || y.rsyncd.Absent? then Absent else Stuck)
    case ReplayLsn(name, lsn) =>
      var there := y.checkpointLsn.Some? && y.checkpointLsn.value <= lsn;
      y.(caughtUp := Mark(y.caughtUp, name, there), behind := Mark(y.behind, name, !there))
    case Checkpoint(name, ok) => y.(checkpointed := Mark(y.checkpointed, name, ok))
    case CopyToProgram(name, _, _, ok) => y.(notified := Mark(y.notified, name, ok))
    case Feedback(name, status) =>
      y.(rsyncOk := Mark(y.rsyncOk, name, Succeeded(status) && name in y.notified), silent := y.silent - {name})
    case NoFeedback(name) => y.(silent := y.silent + {name})
    case _ => y
  }

  /** What the monitor knows after one more event. */
  function Observe(m: Monitor, e: Event): Monitor {
    Monitor(
      m.id,
      ObserveDcs(m.dcs, e),
      ObservePause(m.pause, m.dcs, e),
      ObserveHealth(m.health, e),
      ObserveServer(m.server, e),
      ObserveSync(m.sync, m.server, e),
      if e.Ran? then m.ran + {(e.step, e.ok)} else m.ran)
  }

  /** Every replica streamed with little lag, was healthy and in recovery. */
  predicate ReplicasFit(m: Monitor) {
    && m.dcs.first.Some?
    && LagsOk(m.dcs.first.value.members, m.id.me, m.health.lags)
    && m.Replicas() <= m.health.healthy && m.Replicas() <= m.health.recovering
  }

  /** Every replica replayed the shutdown checkpoint and rsyncd is alive. */
  predicate ReplicasReady(m: Monitor) {
    m.Replicas() != {} ==>
      m.sync.checkpointLsn.Some? && m.Replicas() <= m.sync.caughtUp && m.sync.rsyncd.Alive?
  }

  /** A write over the config `base` flips "pause" and nothing else; it pauses at most once,
      after pg_upgrade --check and with the objects dropped, and resumes only our own pause. */
  predicate MayWrite(m: Monitor, base: Config, after: Config) {
    && after == base["pause" := Bool(!IsPaused(base))]
    && (if IsPaused(base) then m.pause.owned
        else m.pause.writes == 0 && m.server.checkOk && m.Did(DropObjects))
  }

  /** The initialize key was seen to be gone, or its removal was tried. */
  predicate KeyHandled(m: Monitor) {
    m.dcs.lastRead.Some? && (m.dcs.lastRead.value.initialize.None? || m.Tried(CancelInitialization))
  }

  /** May the step be run now? */
  predicate InTurn(m: Monitor, step: Step) {
    match step
    case DropExtensions => m.Did(CheckPrimary)
    case DropObjects => !m.server.stopped && if m.id.role.Primary? then m.server.checkOk else m.Did(PostBootstrap)
    case UpdateConfigs => m.server.switched
    case Rsync => m.server.switched && m.Did(UpdateConfigs)
    case KillPatroni =>
      && m.server.switched && m.Did(UpdateConfigs)
      && (m.id.role.Primary? ==>
            KeyHandled(m) && (m.sync.rsyncd.Absent? || m.sync.rsyncd.Stuck? || m.sync.notified == {}))
    case RestartPostgres => m.Did(KillPatroni) && KeyHandled(m)
    case StartPostgres => m.server.upgraded && m.server.switched
    case UpdateExtensions => if m.id.role.Primary? then m.Tried(RestartPostgres) else m.Did(StartPostgres)
    case RecreateExtensions => m.Tried(UpdateExtensions)
    case Analyze => m.Tried(UpdateExtensions) && (m.id.role.Primary? ==> m.Tried(RecreateExtensions))
    // while the cluster is still paused
    case AwaitReplicas => m.Tried(Analyze) && m.pause.owned
    case Reanalyze => m.Tried(Analyze)
    case PostBootstrap => if m.id.role.Primary? then m.Tried(Reanalyze) else m.Did(AwaitRecovery)
    case _ => true
  }

  /** A loop gives up only after a poll that did not show what it waits for. */
  predicate MayTimeOut(m: Monitor, loop: Loop) {
    match loop
    case PauseLoop(p) => m.dcs.lastRead.Some? && !AllReport(m.dcs.lastRead.value, m.pause.waitNames, p)
    case ReplayLoop => m.sync.behind != {}
    case FeedbackLoop => m.sync.silent != {}
    case KeyLoop =>
      m.dcs.lastRead.Some? && m.dcs.lastRead.value.initialize.Some? && (CancelInitialization, false) in m.ran
    case ApiLoop => m.id.me !in m.health.healthy
  }

  /** May e be the next event after what m has seen? */
  predicate Allowed(m: Monitor, e: Event) {
    match e
    case ClusterRead(c) => c.config == m.dcs.config && c.version == m.dcs.version
    // a write replaces the config last read
    case ConfigWrite(after, _) =>
      && m.dcs.lastRead.Some? && m.dcs.lastRead.value.version == m.dcs.version
      && MayWrite(m, m.dcs.config, after)
    case ConfigWriteFailed(after, expected) =>
      && m.dcs.lastRead.Some? && m.dcs.lastRead.value.version == expected
      && MayWrite(m, m.dcs.lastRead.value.config, after)
    case PgUpgradeStart(check, oldBin, newBin) =>
      && oldBin == m.id.clusterBin && newBin == m.id.desiredBin
      && (check && m.id.role.Primary? ==> ReplicasFit(m) && m.Did(DropExtensions))
      && (!check ==> m.server.stopped && m.Did(DropObjects) && (m.id.role.Primary? ==> ReplicasReady(m)))
    case PgUpgradeExit(check, _) => check in m.server.begun
    case Stop(_) => m.id.role.Primary? ==> m.server.checkOk && m.pause.acked
    case ControlData(bin, _, _) => bin == m.id.clusterBin
    case RsyncdStart => m.sync.checkpointLsn.Some?
    // a replica is told the version we go to and where we are
    case CopyToProgram(name, version, primary, _) =>
      && m.server.switched && !m.sync.rsyncd.Absent? && name in m.sync.caughtUp && name in m.sync.checkpointed
      && m.Did(UpdateConfigs)
      && version == m.id.desired && m.dcs.first.Some? && primary == HostOf(m.dcs.first.value, m.id.me)
    case Feedback(_, _) => !m.server.killed
    // the live directory is only switched under a stopped server, and on the
    // upgrading side only once pg_upgrade has succeeded
    case SwitchDirs => m.server.stopped && (m.id.role.Replica? || m.server.upgraded)
    case Ran(step, _) => InTurn(m, step)
    case TimedOut(loop) => MayTimeOut(m, loop)
    case _ => true
  }

  /** A failure of the environment, or a change made by others. */
  predicate Fault(m: Monitor, e: Event) {
    match e
    case ClusterRead(c) => m.dcs.first.Some? && Names(c) != Names(m.dcs.first.value)
    case ConfigWrite(_, acked) => !acked
    case ApiCheck(_, healthy) => !healthy
    case RecoveryCheck(_, inRecovery) => !inRecovery
    case PgUpgradeExit(check, ok) => check && !ok
    case Stop(ok) => !ok
    case ControlData(_, state, lsn) => state != Some("shut down") || lsn.None?
    case RsyncdPoll(alive) => !alive
    case RsyncdKill(ok) => !ok
    case Checkpoint(_, ok) => !ok
    case CopyToProgram(_, _, _, ok) => !ok
    case Feedback(_, status) => !Succeeded(status)
    case Bootstrap(_, _, ok) => !ok
    case Ran(_, ok) => !ok
    case _ => e.ClusterReadFailed? || e.ConfigWriteFailed? || e.OtherWrite? || e.TimedOut? || e.CallFailed?
  }

  /** The last event shows why a pause could not be lifted: the DCS was not
      reached, refused the write or did not answer, or had no pause to lift. */
  predicate ResumeFailed(e: Event) {
    || e.ClusterReadFailed? || e.ConfigWriteFailed?
    || (e.ConfigWrite? && !e.acked)
    || (e.ClusterRead? && !IsPaused(e.cluster.config))
  }

  // ---- Traces ------------------------------------------------------------

  function Run(s: Monitor, t: seq<Event>): Monitor {
    if t == [] then s else Observe(Run(s, t[..|t| - 1]), t[|t| - 1])
  }

  predicate Legal(s: Monitor, t: seq<Event>) {
    t == [] || (Legal(s, t[..|t| - 1]) && Allowed(Run(s, t[..|t| - 1]), t[|t| - 1]))
  }

  /** Some event was a fault. */
  predicate Faulty(s: Monitor, t: seq<Event>) {
    t != [] && (Faulty(s, t[..|t| - 1]) || Fault(Run(s, t[..|t| - 1]), t[|t| - 1]))
  }

  lemma RunAppend(s: Monitor, t: seq<Event>, e: Event)
    ensures Run(s, t + [e]) == Observe(Run(s, t), e)
    ensures Legal(s, t + [e]) == (Legal(s, t) && Allowed(Run(s, t), e))
    ensures Faulty(s, t + [e]) == (Faulty(s, t) || Fault(Run(s, t), e))
  {
    assert (t + [e])[..|t + [e]| - 1] == t;
  }
}
