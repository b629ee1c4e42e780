/**
 The environment of an upgrade: the DCS and the programs and servers the scripts
 talk to. Every call has a nondeterministic outcome; each records what it showed
 as an event, and notes when it failed. Exceptions are `Raised`.
 */
module Environment {
  import opened Wrappers
  import opened Protocol
  import opened ServerParameters

  class World {
    var config: Config
    var version: nat

    ghost const start: Monitor
    /** All configs the DCS has held, by version. */
    ghost var configs: seq<Config>
    ghost var trace: seq<Event>
    /** `Run(start, trace)`, `Legal(start, trace)` and `Faulty(start, trace)`, kept up to date. */
    ghost var mon: Monitor
    ghost var legal: bool
    ghost var faulty: bool

    ghost predicate Valid()
      reads `config, `version, `configs, `trace, `mon, `legal, `faulty
    {
      && Traced()
      && mon.dcs.config == config && mon.dcs.version == version
      && |configs| == version + 1 && configs[version] == config
    }

    /** mon, legal and faulty are those of the trace. The quantifier only keeps the
        verifier from unrolling the trace where no proof asks for it. */
    ghost predicate Traced()
      reads `trace, `mon, `legal, `faulty
    {
      forall t :: Asked(t) ==> t == trace ==>
        mon == Run(start, t) && legal == Legal(start, t) && faulty == Faulty(start, t)
    }

    constructor (s: Monitor)
      requires s.Initial()
      ensures Valid() && legal && !faulty && trace == [] && start == s && mon == s
      ensures config == s.dcs.config
    {
      config, version := s.dcs.config, 0;
      start, configs, trace, mon, legal, faulty := s, [s.dcs.config], [], s, true, false;
    }

    /** Exactly the event e has been added since the old state. */
    twostate predicate Added(e: Event)
      reads this
    {
      && trace == old(trace) + [e]
      && mon == Observe(old(mon), e)
      && legal == (old(legal) && Allowed(old(mon), e))
    }

    /** The call raised: no more is known than before. */
    twostate predicate Unanswered()
      reads this
    {
      trace == old(trace) + [CallFailed] && mon == old(mon) && legal == old(legal)
    }

    /** The call failed exactly when `bad`. */
    twostate predicate Failed(bad: bool)
      reads this
    {
      faulty == (old(faulty) || bad)
    }

    /** As long as nothing is faulty the config is as it was. */
    twostate predicate Undisturbed()
      reads this
    {
      && (old(faulty) ==> faulty)
      && (faulty || (config == old(config) && version == old(version)))
    }

    ghost method Emit(e: Event)
      requires Traced()
      modifies `trace, `mon, `legal, `faulty
      ensures Traced() && Added(e) && Failed(Fault(old(mon), e))
    {
      assert Asked(trace);
      RunAppend(start, trace, e);
      faulty := faulty || Fault(mon, e);
      legal := legal && Allowed(mon, e);
      mon := Observe(mon, e);
      trace := trace + [e];
    }

    /** A program or step begins, ends or answers. */
    method Note(e: Event)
      requires Valid() && !e.ConfigWrite? && !e.OtherWrite?
      modifies `trace, `mon, `legal, `faulty
      ensures Valid() && Added(e) && Failed(Fault(old(mon), e))
    {
      hide Observe, Allowed, Fault;
      NotAWrite(mon, e);
      Emit(e);
    }

    method Raise()
      requires Valid()
      modifies `trace, `mon, `legal, `faulty
      ensures Valid() && Unanswered() && faulty
    {
      Note(CallFailed);
    }

    /** A step that answers yes or no, or raises. */
    method Ask(step: Step) returns (r: Call<bool>)
      requires Valid() && !step.KillPatroni?
      modifies `trace, `mon, `legal, `faulty
      ensures Valid() && Failed(r != Returned(true)) && RanStep(step, r == Returned(true))
    {
      var raised: bool := *;
      var answer: bool := *;
      r := if raised then Raised else Returned(answer);
      Note(Ran(step, r == Returned(true)));
    }

    /** A step that works or raises. */
    method Do(step: Step) returns (r: Call<()>)
      requires Valid() && !step.KillPatroni?
      modifies `trace, `mon, `legal, `faulty
      ensures Valid() && Failed(r.Raised?) && RanStep(step, r.Returned?)
    {
      var works: bool := *;
      Note(Ran(step, works));
      r := if works then Returned(()) else Raised;
    }

    /** A step elsewhere in the model has ended. */
    method Report(step: Step, ok: bool)
      requires Valid() && !step.KillPatroni?
      modifies `trace, `mon, `legal, `faulty
      ensures Valid() && Failed(!ok) && RanStep(step, ok)
    {
      Note(Ran(step, ok));
    }

    /** Exactly this step has been run since the old state. */
    twostate predicate RanStep(step: Step, ok: bool)
      reads this
    {
      && trace == old(trace) + [Ran(step, ok)]
      && mon == old(mon).(ran := old(mon).ran + {(step, ok)})
      && legal == (old(legal) && InTurn(old(mon), step))
    }

    /** The deadline of a polling_loop has passed. */
    method TimeOut(loop: Loop)
      requires Valid()
      modifies `trace, `mon, `legal, `faulty
      ensures Valid() && faulty && trace == old(trace) + [TimedOut(loop)]
      ensures mon == old(mon) && legal == (old(legal) && MayTimeOut(old(mon), loop))
    {
      Note(TimedOut(loop));
    }

    // ---- DCS -------------------------------------------------------------

    /** The DCS takes a new config. */
    method Install(value: Config, ghost e: Event)
      requires Valid()
      requires e == OtherWrite(value) || e == ConfigWrite(value, true) || e == ConfigWrite(value, false)
      modifies `config, `version, `configs, `trace, `mon, `legal, `faulty
      ensures Valid() && Added(e) && Failed(Fault(old(mon), e)) && old(configs) <= configs
    {
      config, version, configs := value, version + 1, configs + [value];
      Emit(e);
    }

    /** Other writers change the config at will. */
    method OtherWriters()
      requires Valid()
      modifies this
      ensures Valid() && legal == old(legal) && old(configs) <= configs
      ensures SameButConfig(old(mon), mon) && Undisturbed() && |old(trace)| <= |trace|
    {
      hide Observe, Allowed;
      var n := AnyCount();
      while n > 0
        invariant Valid() && legal == old(legal) && old(configs) <= configs
        invariant SameButConfig(old(mon), mon) && Undisturbed() && |old(trace)| <= |trace|
      {
        var c := AnyConfig();
        OtherWriteIsForeign(mon, c);
        Install(c, OtherWrite(c));
        n := n - 1;
      }
    }

    /** dcs.get_cluster(); a change of the membership counts as a fault. */
    method GetCluster() returns (r: Call<Cluster>)
      requires Valid()
      modifies this
      ensures Valid() && legal == old(legal) && old(configs) <= configs
      ensures Undisturbed()
      ensures |old(trace)| < |trace|
      ensures r.Raised? ==> faulty && trace[|trace| - 1] == ClusterReadFailed && SameButConfig(old(mon), mon)
      ensures r.Returned? ==>
                && trace[|trace| - 1] == ClusterRead(r.value)
                && r.value.config == config && r.value.version == version
                && mon == Observe(Reconfigured(old(mon), config, version), ClusterRead(r.value))
                && (faulty || old(mon).dcs.first.None? || Names(r.value) == Names(old(mon).dcs.first.value))
    {
      OtherWriters();
      var works: bool := *;
      if works {
        var c := AnyCluster(config, version);
        Emit(ClusterRead(c));
        r := Returned(c);
      } else {
        Emit(ClusterReadFailed);
        r := Raised;
      }
    }

    /** dcs.set_config_value(value, expected): a compare-and-set on the version.
        It may be applied without our hearing of it. */
    method SetConfigValue(value: Config, expected: nat) returns (r: Call<bool>)
      requires Valid() && expected < |configs|
      modifies this
      ensures Valid() && old(configs) <= configs
      ensures (old(faulty) ==> faulty) && (r != Returned(true) ==> faulty)
      ensures |old(trace)| < |trace|
      ensures r == Returned(true) ==> trace[|trace| - 1] == ConfigWrite(value, true)
      ensures r != Returned(true) ==>
                trace[|trace| - 1] == ConfigWrite(value, false) || trace[|trace| - 1] == ConfigWriteFailed(value, expected)
      ensures
        var read := Reconfigured(old(mon), configs[expected], expected);
        var last := trace[|trace| - 1];
        if last.ConfigWriteFailed? then
          SameButConfig(old(mon), mon) && legal == (old(legal) && Allowed(old(mon), last))
        else
          mon == Observe(read, last) && legal == (old(legal) && Allowed(read, last))
    {
      OtherWriters();
      var reached: bool := *;
      var acked: bool := *;
      if reached && version == expected {
        Install(value, ConfigWrite(value, acked));
        if acked {
          return Returned(true);
        }
      } else {
        Emit(ConfigWriteFailed(value, expected));
      }
      var raised: bool := *;
      r := if raised then Raised else Returned(false);
    }

    // ---- Programs and servers ---------------------------------------------

    /** SELECT client_addr, lag FROM pg_stat_replication */
    method QueryStreaming() returns (r: Call<map<string, int>>)
      requires Valid()
      modifies `trace, `mon, `legal, `faulty
      ensures Valid() && Failed(r.Raised?)
      ensures if r.Returned? then Added(Streaming(r.value)) else Unanswered()
    {
      var works: bool := *;
      if !works {
        Raise();
        return Raised;
      }
      var lags := AnyLags();
      Note(Streaming(lags));
      r := Returned(lags);
    }

    /** GET on a member's REST API: healthy when it answers 200. */
    method CheckApi(name: string) returns (healthy: bool)
      requires Valid()
      modifies `trace, `mon, `legal, `faulty
      ensures Valid() && Added(ApiCheck(name, healthy)) && Failed(!healthy)
    {
      healthy := *;
      Note(ApiCheck(name, healthy));
    }

    /** Connect to a member and SELECT pg_is_in_recovery(). */
    method ConnectAndCheckRecovery(name: string) returns (r: Call<bool>)
      requires Valid()
      modifies `trace, `mon, `legal, `faulty
      ensures Valid() && Failed(r != Returned(true))
      ensures if r.Returned? then Added(RecoveryCheck(name, r.value)) else Unanswered()
    {
      var works: bool := *;
      if !works {
        Raise();
        return Raised;
      }
      var inRecovery: bool := *;
      Note(RecoveryCheck(name, inRecovery));
      r := Returned(inRecovery);
    }

    /** Patroni's Postgresql.stop(). */
    method StopPostgres() returns (r: Call<bool>)
      requires Valid()
      modifies `trace, `mon, `legal, `faulty
      ensures Valid() && Failed(r != Returned(true))
      ensures if r.Returned? then Added(Stop(r.value)) else Unanswered()
    {
      var works: bool := *;
      if !works {
        Raise();
        return Raised;
      }
      var stopped: bool := *;
      Note(Stop(stopped));
      r := Returned(stopped);
    }

    /** pg_controldata of the given binaries: cluster state and checkpoint. */
    method ReadControlData(bin: string) returns (r: Call<(Option<string>, Option<nat>)>)
      requires Valid()
      modifies `trace, `mon, `legal, `faulty
      ensures Valid()
      ensures Failed(r.Raised? || r.value.0 != Some("shut down") || r.value.1.None?)
      ensures if r.Returned? then Added(ControlData(bin, r.value.0, r.value.1)) else Unanswered()
    {
      var works: bool := *;
      if !works {
        Raise();
        return Raised;
      }
      var state := AnyText();
      var lsn := AnyLsn();
      Note(ControlData(bin, state, lsn));
      r := Returned((state, lsn));
    }

    method StartRsyncd() returns (r: Call<()>)
      requires Valid()
      modifies `trace, `mon, `legal, `faulty
      ensures Valid() && Failed(r.Raised?)
      ensures if r.Returned? then Added(RsyncdStart) else Unanswered()
    {
      var works: bool := *;
      if !works {
        Raise();
        return Raised;
      }
      Note(RsyncdStart);
      r := Returned(());
    }

    /** rsyncd.pid and rsyncd.poll() is None */
    method PollRsyncd() returns (alive: bool)
      requires Valid()
      modifies `trace, `mon, `legal, `faulty
      ensures Valid() && Added(RsyncdPoll(alive)) && Failed(!alive)
    {
      alive := *;
      Note(RsyncdPoll(alive));
    }

    method KillRsyncd() returns (r: Call<()>)
      requires Valid()
      modifies `trace, `mon, `legal, `faulty
      ensures Valid() && Added(RsyncdKill(r.Returned?)) && Failed(r.Raised?)
    {
      var works: bool := *;
      Note(RsyncdKill(works));
      r := if works then Returned(()) else Raised;
    }

    /** pg_last_wal_replay_lsn() on a replica; NULL is None, and a failure of its own. */
    method QueryReplayLsn(name: string) returns (r: Call<Option<nat>>)
      requires Valid()
      modifies `trace, `mon, `legal, `faulty
      ensures Valid() && Failed(r.Raised? || r.value.None?)
      ensures if r.Returned? && r.value.Some? then Added(ReplayLsn(name, r.value.value)) else Unanswered()
    {
      var works: bool := *;
      var lsn := AnyLsn();
      if works && lsn.Some? {
        Note(ReplayLsn(name, lsn.value));
      } else {
        Raise();
      }
      r := if works then Returned(lsn) else Raised;
    }

    method RunCheckpoint(name: string) returns (ok: bool)
      requires Valid()
      modifies `trace, `mon, `legal, `faulty
      ensures Valid() && Added(Checkpoint(name, ok)) && Failed(!ok)
    {
      ok := *;
      Note(Checkpoint(name, ok));
    }

    /** COPY ... TO PROGRAM on a replica, which starts rsync there. */
    method RunCopyToProgram(name: string, desired: string, primary: Option<string>) returns (r: Call<()>)
      requires Valid()
      modifies `trace, `mon, `legal, `faulty
      ensures Valid() && Added(CopyToProgram(name, desired, primary, r.Returned?)) && Failed(r.Raised?)
    {
      var works: bool := *;
      Note(CopyToProgram(name, desired, primary, works));
      r := if works then Returned(()) else Raised;
    }

    /** The feedback file of a replica, None while it does not exist. */
    method ReadFeedback(name: string) returns (r: Call<Option<string>>)
      requires Valid()
      modifies `trace, `mon, `legal, `faulty
      ensures Valid()
      ensures Failed(r.Raised? || (r.value.Some? && !Succeeded(r.value.value)))
      ensures
        if r.Raised? then Unanswered()
        else Added(if r.value.Some? then Feedback(name, r.value.value) else NoFeedback(name))
    {
      var works: bool := *;
      if !works {
        Raise();
        return Raised;
      }
      var status := AnyText();
      Note(if status.Some? then Feedback(name, status.value) else NoFeedback(name));
      r := Returned(status);
    }

    method KillPatroni() returns (r: Call<()>)
      requires Valid()
      modifies `trace, `mon, `legal, `faulty
      ensures Valid() && Failed(r.Raised?)
      ensures trace == old(trace) + [Ran(Step.KillPatroni, r.Returned?)] && mon == Killed(old(mon), r.Returned?)
      ensures legal == (old(legal) && InTurn(old(mon), Step.KillPatroni))
    {
      var works: bool := *;
      Note(Ran(Step.KillPatroni, works));
      r := if works then Returned(()) else Raised;
    }

    /** bootstrap.bootstrap(config): a recovery that runs with these parameters. */
    method RunBootstrap(parameters: Parameters, config: Method) returns (r: Call<bool>)
      requires Valid()
      modifies `trace, `mon, `legal, `faulty
      ensures Valid() && Failed(r != Returned(true))
      ensures trace == old(trace) + [Bootstrap(parameters, config, r == Returned(true))]
      ensures mon == old(mon) && legal == old(legal)
    {
      var raised: bool := *;
      var answer: bool := *;
      r := if raised then Raised else Returned(answer);
      Note(Bootstrap(parameters, config, r == Returned(true)));
    }
  }

  // ---- Answers of the environment --------------------------------------------

  method AnyConfig() returns (c: Config) {
    c := *;
  }

  method AnyCount() returns (n: nat) {
    var k: int := *;
    n := if k < 0 then 0 else k;
  }

  method AnyText() returns (text: Option<string>) {
    text := *;
  }

  method AnyLags() returns (lags: map<string, int>) {
    lags := *;
  }

  method AnyLsn() returns (lsn: Option<nat>) {
    var known: bool := *;
    var n: nat := *;
    lsn := if known then Some(n) else None;
  }

  method AnyCluster(config: Config, version: nat) returns (c: Cluster)
    ensures c.config == config && c.version == version
  {
    var members: seq<Member> := *;
    var initialize := AnyText();
    var leader := AnyText();
    c := Cluster(members, config, version, initialize, leader);
  }

  // ---- Monitors and the DCS ----------------------------------------------------

  predicate Asked(t: seq<Event>) {
    true
  }

  function Reconfigured(m: Monitor, c: Config, v: nat): Monitor {
    m.(dcs := m.dcs.(config := c, version := v))
  }

  /** Patroni was killed, or was to be: what was read before is out of date. */
  function Killed(m: Monitor, ok: bool): Monitor {
    m.(ran := m.ran + {(KillPatroni, ok)}, dcs := if ok then m.dcs.(lastRead := None) else m.dcs,
       server := m.server.(killed := true))
  }

  /** Nothing but steps has happened. */
  predicate Further(m: Monitor, n: Monitor) {
    n == m.(ran := n.ran) && m.ran <= n.ran
  }

  /** Only the config and its version may differ. */
  predicate SameButConfig(m: Monitor, n: Monitor) {
    n == Reconfigured(m, n.dcs.config, n.dcs.version)
  }

  lemma NotAWrite(m: Monitor, e: Event)
    requires !e.ConfigWrite? && !e.OtherWrite?
    ensures Observe(m, e).dcs.config == m.dcs.config && Observe(m, e).dcs.version == m.dcs.version
  {
  }

  lemma OtherWriteIsForeign(m: Monitor, c: Config)
    ensures Allowed(m, OtherWrite(c)) && SameButConfig(m, Observe(m, OtherWrite(c)))
  {
  }
}
