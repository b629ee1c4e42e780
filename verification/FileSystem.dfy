/**
 The data directories of one server: what each holds, the primitive steps on
 them, and why a run whose every step keeps the data never loses it.
 */
module FileSystems {
  import opened Wrappers

  /** What a data directory holds. `Old` and `Upgraded` are complete copies of
      the cluster; so is `Linked`, an old one from which pg_upgrade has begun to link
      files, and which it has taken the control file from. `Fresh` is an empty cluster made by initdb, `Partial` is a
      directory some operation was interrupted in, `Leftover` is unrelated. */
  datatype Image = Old | Linked | Upgraded | Fresh | Partial | Leftover

  type Dirs = map<string, Image>

  predicate Complete(i: Image) {
    i.Old? || i.Linked? || i.Upgraded?
  }

  function OldDir(home: string): (p: string)
    ensures p != home && |p| == |home| + 4 && p[|home| + 1] == 'o'
  {
    home + "_old"
  }

  function NewDir(home: string): (p: string)
    ensures p != home && |p| == |home| + 4 && p[|home| + 1] == 'n'
    ensures p != OldDir(home)
  {
    assert (home + "_new")[|home| + 1] == 'n';
    home + "_new"
  }

  predicate Holds(d: Dirs, p: string) {
    p in d && Complete(d[p])
  }

  /** A complete copy of the cluster exists under one of the three names. */
  predicate Safe(home: string, d: Dirs) {
    Holds(d, home) || Holds(d, OldDir(home)) || Holds(d, NewDir(home))
  }

  /** An image stays as it is, or files are linked from it. */
  predicate Kept(before: Image, after: Image) {
    before == after || (before.Old? && after.Linked?)
  }

  /** One of them existed at every moment from the n-th of the log on. */
  predicate SafeFrom(home: string, log: seq<Dirs>, n: nat) {
    forall i :: n <= i < |log| ==> Safe(home, log[i])
  }

  /** From the n-th moment of the log on the directories are d, but for one. */
  predicate OnlyTouched(log: seq<Dirs>, n: nat, d: Dirs, path: string) {
    forall i :: n <= i < |log| ==> log[i] - {path} == d - {path}
  }

  lemma SafeWhileTouched(home: string, log: seq<Dirs>, n: nat, d: Dirs, path: string)
    requires OnlyTouched(log, n, d, path)
    requires (Holds(d, home) && path != home) || (Holds(d, OldDir(home)) && path != OldDir(home))
    ensures SafeFrom(home, log, n)
  {
    forall i | n <= i < |log|
      ensures Safe(home, log[i])
    {
      var kept := if Holds(d, home) && path != home then home else OldDir(home);
      assert kept in d - {path} && (d - {path})[kept] == d[kept];
      assert kept in log[i] - {path} && (log[i] - {path})[kept] == log[i][kept];
    }
  }

  /** The directory stays where it is, as it was or linked from. */
  predicate Stays(d: Dirs, e: Dirs, p: string) {
    p in d && p in e && Kept(d[p], e[p])
  }

  predicate Moved(d: Dirs, e: Dirs, src: string, dst: string) {
    src in d && src !in e && dst !in d && dst in e && e[dst] == d[src]
  }

  /** One step from d to e loses nothing: a complete live directory stays or is
      renamed; a complete `_old` stays, is renamed back, or goes while the live
      directory is complete; a complete `_new` that is the last copy stays or
      becomes the live directory. */
  predicate KeepsData(home: string, d: Dirs, e: Dirs) {
    && (Holds(d, home) ==>
          Stays(d, e, home) || Moved(d, e, home, OldDir(home)) || Moved(d, e, home, NewDir(home)))
    && (Holds(d, OldDir(home)) ==>
          Stays(d, e, OldDir(home)) || Moved(d, e, OldDir(home), home) || (Holds(d, home) && Stays(d, e, home)))
    && (Holds(d, NewDir(home)) && !Holds(d, home) && !Holds(d, OldDir(home)) ==>
          Stays(d, e, NewDir(home)) || Moved(d, e, NewDir(home), home))
  }

  /** Every step of the log keeps the data. */
  predicate KeptThroughout(home: string, log: seq<Dirs>) {
    |log| <= 1 || (KeptThroughout(home, log[..|log| - 1]) && KeepsData(home, log[|log| - 2], log[|log| - 1]))
  }

  lemma {:induction false} KeptEverywhere(home: string, log: seq<Dirs>, i: nat)
    requires KeptThroughout(home, log) && i < |log| - 1
    ensures KeepsData(home, log[i], log[i + 1])
  {
    if i < |log| - 2 {
      KeptEverywhere(home, log[..|log| - 1], i);
    }
  }

  /** No data loss: once one of the three directories is a complete copy of the
      cluster, one is wherever such a run is cut off. */
  lemma {:induction false} NoDataLoss(home: string, log: seq<Dirs>, j: nat, i: nat)
    requires KeptThroughout(home, log) && j <= i < |log| && Safe(home, log[j])
    ensures Safe(home, log[i])
  {
    if j < i {
      NoDataLoss(home, log, j, i - 1);
      KeptEverywhere(home, log, i - 1);
    }
  }

  /** A complete `_old` only disappears while the live directory is complete, or
      by becoming the live directory. */
  lemma OldDirOutlivesUse(home: string, log: seq<Dirs>, i: nat)
    requires KeptThroughout(home, log) && i < |log| - 1
    requires Holds(log[i], OldDir(home)) && !Stays(log[i], log[i + 1], OldDir(home))
    ensures
      || (Holds(log[i], home) && Stays(log[i], log[i + 1], home))
      || (home !in log[i] && home in log[i + 1] && log[i + 1][home] == log[i][OldDir(home)])
  {
    KeptEverywhere(home, log, i);
  }

  lemma SafeThroughout(home: string, before: seq<Dirs>, log: seq<Dirs>, n: nat)
    requires before <= log && SafeFrom(home, before, n) && SafeFrom(home, log, |before|)
    ensures SafeFrom(home, log, n)
  {
    forall i | n <= i < |log|
      ensures Safe(home, log[i])
    {
      if i < |before| {
        assert log[i] == before[i];
      }
    }
  }

  lemma KeptIsSafe(home: string, log: seq<Dirs>, n: nat)
    requires KeptThroughout(home, log) && n < |log| && Safe(home, log[n])
    ensures SafeFrom(home, log, n)
  {
    forall i | n <= i < |log|
      ensures Safe(home, log[i])
    {
      NoDataLoss(home, log, n, i);
    }
  }

  predicate Asked<T>(t: T) {
    true
  }

  class FileSystem {
    var dirs: Dirs
    ghost const home: string
    /** Every state the directories have been in, up to now. */
    ghost var log: seq<Dirs>
    /** `KeptThroughout(home, log)`, kept up to date. */
    ghost var kept: bool
    /** Some call has failed. */
    ghost var faulty: bool

    ghost predicate Valid()
      reads `dirs, `log, `kept
    {
      log != [] && log[|log| - 1] == dirs && Logged()
    }

    /** The quantifier only keeps the verifier from unrolling the log where no
        proof asks for it. */
    ghost predicate Logged()
      reads `log, `kept
    {
      forall l :: Asked(l) ==> l == log ==> kept == KeptThroughout(home, l)
    }

    constructor (d: Dirs, home: string)
      ensures Valid() && kept && !faulty && dirs == d && this.home == home && log == [d]
    {
      dirs := d;
      this.home, log, kept, faulty := home, [d], true, false;
    }

    method SetDirs(d: Dirs)
      requires Valid()
      modifies this
      ensures Valid() && dirs == d
      ensures log == old(log) + [d] && faulty == old(faulty)
      ensures kept == (old(kept) && KeepsData(home, old(dirs), d))
    {
      assert Asked(log);
      assert (log + [d])[..|log|] == log;
      kept := kept && KeepsData(home, dirs, d);
      log := log + [d];
      dirs := d;
    }

    /** shutil.rmtree: not atomic, and it may stop half way. */
    method RmTree(path: string) returns (r: Call<()>)
      requires Valid()
      modifies this
      ensures Valid() && old(log) <= log
      ensures path !in old(dirs) ==> r.Raised?
      ensures faulty == (old(faulty) || (r.Raised? && path in old(dirs)))
      ensures r.Returned? ==> dirs == old(dirs) - {path}
      ensures r.Raised? ==> dirs == old(dirs) || (path in old(dirs) && dirs == old(dirs)[path := Partial])
      ensures OnlyTouched(log, |old(log)|, old(dirs), path)
      ensures old(kept) && MayChange(home, old(dirs), old(dirs)[path := Partial], old(dirs) - {path}) ==> kept
    {
      var started: bool := *;
      if path !in dirs {
        return Raised;
      }
      if !started {
        faulty := true;
        return Raised;
      }
      ghost var before := dirs;
      SetDirs(dirs[path := Partial]);
      var finished: bool := *;
      if !finished {
        faulty := true;
        return Raised;
      }
      assert dirs - {path} == before - {path};
      SetDirs(dirs - {path});
      r := Returned(());
    }

    /** os.rename of a directory: atomic, and never onto an existing one. */
    method Rename(src: string, dst: string) returns (r: Call<()>)
      requires Valid()
      modifies this
      ensures Valid() && old(log) <= log
      ensures src !in old(dirs) || dst in old(dirs) ==> r.Raised?
      ensures faulty ==> old(faulty) || r.Raised?
      ensures old(faulty) ==> faulty
      ensures r.Raised? ==> faulty || src !in old(dirs) || dst in old(dirs)
      ensures r.Returned? ==>
                && src in old(dirs) && dirs == Renamed(old(dirs), src, dst)
                && kept == (old(kept) && KeepsData(home, old(dirs), dirs))
      ensures r.Raised? ==> dirs == old(dirs) && kept == old(kept)
      ensures log == if r.Returned? then old(log) + [dirs] else old(log)
    {
      var works: bool := *;
      if src !in dirs || dst in dirs {
        return Raised;
      }
      if !works {
        faulty := true;
        return Raised;
      }
      SetDirs(Renamed(dirs, src, dst));
      r := Returned(());
    }

    /** Writes into one directory by another program: it may stop at any point,
        leaving the directory as it was, `Partial` or `result`. */
    method WriteDir(path: string, result: Image) returns (ok: bool)
      requires Valid()
      modifies this
      ensures Valid() && old(log) <= log
      ensures ok ==> dirs == old(dirs)[path := result]
      ensures faulty == (old(faulty) || !ok)
      ensures dirs == old(dirs) || dirs == old(dirs)[path := Partial] || dirs == old(dirs)[path := result]
      ensures old(kept) && MayChange(home, old(dirs), old(dirs)[path := Partial], old(dirs)[path := result]) ==> kept
    {
      ok := false;
      var touched: bool := *;
      if touched {
        ghost var before := dirs;
        SetDirs(dirs[path := Partial]);
        var complete: bool := *;
        if complete {
          assert dirs[path := result] == before[path := result];
          SetDirs(dirs[path := result]);
          ok := *;
        }
      }
      faulty := faulty || !ok;
    }

    /** initdb, into a directory that must not exist yet. */
    method InitDb(path: string) returns (ok: bool)
      requires Valid()
      modifies this
      ensures Valid() && old(log) <= log
      ensures ok ==> path !in old(dirs) && dirs == old(dirs)[path := Fresh]
      ensures if path in old(dirs) then !ok && faulty == old(faulty) else faulty == (old(faulty) || !ok)
      ensures dirs == old(dirs) || dirs == old(dirs)[path := Partial] || dirs == old(dirs)[path := Fresh]
      ensures old(kept) && MayChange(home, old(dirs), old(dirs)[path := Partial], old(dirs)[path := Fresh]) ==> kept
    {
      if path in dirs {
        ok := false;
      } else {
        ok := WriteDir(path, Fresh);
      }
    }

    /** While every step keeps the data there is a complete copy. */
    lemma SafeSoFar(n: nat)
      requires Valid() && kept && n < |log| && Safe(home, log[n])
      ensures SafeFrom(home, log, n)
    {
      assert Asked(log);
      KeptIsSafe(home, log, n);
    }

    /** The live directory has been stashed, and the transfer spares it. */
    ghost predicate SparedBy(d: Dirs, data: string, transfer: Transfer) {
      data == home && home !in d && Holds(d, OldDir(home)) && Spares(transfer, d[OldDir(home)])
    }

    /** What rsync does to `data` and `data_old`, one write after the other. */
    method Sync(data: string, transfer: Transfer) returns (ok: bool)
      requires Valid()
      modifies this
      ensures Valid() && ok == transfer.ok && faulty == (old(faulty) || !ok)
      ensures log == old(log) + States(old(dirs), data, transfer.steps) && dirs == After(old(dirs), data, transfer)
      ensures old(kept && SparedBy(dirs, data, transfer)) ==> kept
    {
      hide KeepsData, Valid, Synced, Spares;
      ghost var d := dirs;
      ghost var spared := SparedBy(d, data, transfer);
      for i := 0 to |transfer.steps|
        invariant Valid() && faulty == old(faulty)
        invariant log == old(log) + States(d, data, transfer.steps[..i])
        invariant dirs == if i == 0 then d else Synced(d, data, transfer.steps[i - 1])
        invariant old(kept) && spared ==> kept
      {
        if spared {
          SparedStep(d, transfer, i, home);
        }
        StatesSnoc(d, data, transfer.steps, i);
        ghost var before := log;
        if i > 0 {
          SyncedAgain(d, data, transfer.steps[i - 1], transfer.steps[i]);
        }
        SetDirs(Synced(dirs, data, transfer.steps[i]));
        assert log == before + [dirs];
      }
      assert transfer.steps[..|transfer.steps|] == transfer.steps;
      ok := transfer.ok;
      faulty := faulty || !ok;
    }

    /** What pg_upgrade does: it sets up an empty new cluster, takes the control file of
        the old one and links its files. It may stop at any point. */
    method UpgradeDir(oldPath: string, newPath: string) returns (ok: bool)
      requires Valid()
      modifies this
      ensures Valid() && old(log) <= log
      ensures ok ==>
                Upgradable(old(dirs), oldPath, newPath) && dirs == Linking(old(dirs), oldPath, newPath, Upgraded)
      ensures old(faulty) ==> faulty
      ensures !ok ==> faulty || !Upgradable(old(dirs), oldPath, newPath)
      ensures !Upgradable(old(dirs), oldPath, newPath) ==> dirs == old(dirs)
      ensures || dirs == old(dirs) || dirs == old(dirs)[newPath := Partial]
              || dirs == Linking(old(dirs), oldPath, newPath, Partial)
              || dirs == Linking(old(dirs), oldPath, newPath, Upgraded)
      ensures old(kept) && (Upgradable(old(dirs), oldPath, newPath) ==> MayUpgrade(home, old(dirs), oldPath, newPath)) ==> kept
    {
      hide KeepsData, Valid;
      ok := false;
      if !Upgradable(dirs, oldPath, newPath) {
        return;
      }
      ghost var d := dirs;
      var touched: bool := *;
      if touched {
        SetDirs(dirs[newPath := Partial]);
        var linked: bool := *;
        if linked {
          LinkedAgain(d, oldPath, newPath);
          SetDirs(Linking(dirs, oldPath, newPath, Partial));
          var complete: bool := *;
          if complete {
            SetDirs(Linking(dirs, oldPath, newPath, Upgraded));
            ok := *;
          }
        }
      }
      faulty := faulty || !ok;
    }
  }

  /** The two directories once files are linked. */
  function Linking(d: Dirs, oldPath: string, newPath: string, image: Image): Dirs {
    d[newPath := image][oldPath := Linked]
  }

  lemma LinkedAgain(d: Dirs, oldPath: string, newPath: string)
    ensures Linking(d[newPath := Partial], oldPath, newPath, Partial) == Linking(d, oldPath, newPath, Partial)
    ensures Linking(Linking(d, oldPath, newPath, Partial), oldPath, newPath, Upgraded) == Linking(d, oldPath, newPath, Upgraded)
  {
  }

  predicate MayUpgrade(home: string, d: Dirs, oldPath: string, newPath: string) {
    && KeepsData(home, d, d[newPath := Partial])
    && KeepsData(home, d[newPath := Partial], Linking(d, oldPath, newPath, Partial))
    && KeepsData(home, Linking(d, oldPath, newPath, Partial), Linking(d, oldPath, newPath, Upgraded))
  }

  lemma MayUpgradeHome(home: string, d: Dirs)
    requires Upgradable(d, home, NewDir(home))
    ensures MayUpgrade(home, d, home, NewDir(home))
  {
  }

  /** A run of rsync: what it leaves in `data` and `data_old` after each of its writes (None
      for a directory that is gone), and whether it exits with 0. */
  datatype Transfer = Transfer(steps: seq<(Option<Image>, Option<Image>)>, ok: bool)
  {
    /** Exit status 0 means that the live directory is that of the primary. */
    predicate Valid() {
      ok ==> steps != [] && steps[|steps| - 1].0 == Some(Upgraded)
    }
  }

  function Put(d: Dirs, p: string, i: Option<Image>): Dirs {
    if i.Some? then d[p := i.value] else d - {p}
  }

  function Synced(d: Dirs, data: string, step: (Option<Image>, Option<Image>)): Dirs {
    Put(Put(d, data, step.0), OldDir(data), step.1)
  }

  function States(d: Dirs, data: string, steps: seq<(Option<Image>, Option<Image>)>): seq<Dirs> {
    seq(|steps|, i requires 0 <= i < |steps| => Synced(d, data, steps[i]))
  }

  function After(d: Dirs, data: string, transfer: Transfer): Dirs {
    if transfer.steps == [] then d else Synced(d, data, transfer.steps[|transfer.steps| - 1])
  }

  /** rsync keeps `data_old` throughout, which begins with the given image, and `data` once it
      has completed it. */
  predicate Spares(transfer: Transfer, image: Image) {
    forall i :: 0 <= i < |transfer.steps| ==>
      && transfer.steps[i].1.Some? && Kept(image, transfer.steps[i].1.value)
      && (i > 0 && transfer.steps[i - 1].1.Some? ==> Kept(transfer.steps[i - 1].1.value, transfer.steps[i].1.value))
      && (i > 0 && transfer.steps[i - 1].0.Some? && Complete(transfer.steps[i - 1].0.value) ==>
            transfer.steps[i].0 == transfer.steps[i - 1].0)
  }

  /** At an input: what a finished rsync from an upgraded primary does, whose `data_old` has
      lost its control file. */
  lemma UsualTransferSpares()
    ensures
      var usual := Transfer([(Some(Partial), Some(Old)), (Some(Partial), Some(Linked)), (Some(Upgraded), Some(Linked))], true);
      usual.Valid() && Spares(usual, Old)
  {
  }

  lemma SyncedAgain(d: Dirs, data: string, s: (Option<Image>, Option<Image>), t: (Option<Image>, Option<Image>))
    ensures Synced(Synced(d, data, s), data, t) == Synced(d, data, t)
  {
  }

  lemma StatesSnoc(d: Dirs, data: string, steps: seq<(Option<Image>, Option<Image>)>, i: nat)
    requires i < |steps|
    ensures States(d, data, steps[..i + 1]) == States(d, data, steps[..i]) + [Synced(d, data, steps[i])]
  {
    assert steps[..i + 1] == steps[..i] + [steps[i]];
  }

  lemma SparedStep(d: Dirs, transfer: Transfer, i: nat, home: string)
    requires home !in d && Holds(d, OldDir(home)) && Spares(transfer, d[OldDir(home)]) && i < |transfer.steps|
    ensures
      var before := if i == 0 then d else Synced(d, home, transfer.steps[i - 1]);
      KeepsData(home, before, Synced(d, home, transfer.steps[i]))
  {
  }

  /** An old cluster and an empty new one to fill from it. */
  predicate Upgradable(d: Dirs, oldPath: string, newPath: string) {
    oldPath in d && d[oldPath] == Old && newPath in d && d[newPath] == Fresh
  }

  function Renamed(d: Dirs, src: string, dst: string): Dirs
    requires src in d
  {
    (d - {src})[dst := d[src]]
  }

  /** The directories may change from d to `partial` and then to `final`. */
  predicate MayChange(home: string, d: Dirs, partial: Dirs, final: Dirs) {
    KeepsData(home, d, partial) && KeepsData(home, partial, final)
  }

  // ---- The steps an upgrade takes --------------------------------------------

  /** The directories after switch_pgdata: `data` became `_old`, replacing an
      earlier one, and `prepared`, if there is one, became `data`. */
  function Switched(d: Dirs, data: string, prepared: Option<string>): Dirs
    requires data in d
  {
    var moved := Renamed(d - {OldDir(data)}, data, OldDir(data));
    match prepared
    case None => moved
    case Some(n) => if n in moved then Renamed(moved, n, data) else moved
  }

  /** The directories after switch_back_pgdata: what is in `data` became `_new`,
      replacing an earlier one, and `_old` became `data`. */
  function SwitchedBack(d: Dirs, data: string): Dirs
    requires OldDir(data) in d
  {
    var aside := if data in d then Renamed(d - {NewDir(data)}, data, NewDir(data)) else d;
    Renamed(aside, OldDir(data), data)
  }

  /** Where the data survives a switch back, however far it gets. */
  predicate MayGoBack(d: Dirs, data: string) {
    Safe(data, d) && (data in d ==> Holds(d, data) || Holds(d, OldDir(data)))
  }

  lemma BackIsSafe(d: Dirs, data: string)
    requires MayGoBack(d, data) && OldDir(data) in d
    ensures Safe(data, SwitchedBack(d, data))
  {
  }

  lemma AsideIsSafe(d: Dirs, data: string)
    requires data in d && (Holds(d, data) || Holds(d, OldDir(data)))
    ensures Safe(data, Renamed(d - {NewDir(data)}, data, NewDir(data)))
  {
  }

  /** Whatever is written to `data` after the switch, or if nothing is, switching
      back restores the live directory and touches no other than `_old`, `_new`. */
  lemma RollbackRestoresData(d: Dirs, data: string, written: Option<Image>)
    requires data in d
    ensures
      var switched := Switched(d, data, None);
      var dirty := if written.Some? then switched[data := written.value] else switched;
      var back := SwitchedBack(dirty, data);
      && back[data] == d[data]
      && OldDir(data) !in back
      && (written.Some? ==> NewDir(data) in back && back[NewDir(data)] == written.value)
      && (written.None? ==> back == d - {OldDir(data)})
      && back - {OldDir(data), NewDir(data)} == d - {OldDir(data), NewDir(data)}
  {
  }

  /** With a prepared `_new` the two switches are inverse, but for an earlier `_old`. */
  lemma SwitchBackIsInverse(d: Dirs, data: string)
    requires data in d && NewDir(data) in d
    ensures SwitchedBack(Switched(d, data, Some(NewDir(data))), data) == d - {OldDir(data)}
  {
  }

  lemma MayRemoveOld(home: string, d: Dirs)
    requires Holds(d, home)
    ensures MayChange(home, d, d[OldDir(home) := Partial], d - {OldDir(home)})
  {
  }

  lemma MayChangeNew(home: string, d: Dirs, i: Image)
    requires Holds(d, home) || Holds(d, OldDir(home))
    ensures MayChange(home, d, d[NewDir(home) := Partial], d - {NewDir(home)})
    ensures MayChange(home, d, d[NewDir(home) := Partial], d[NewDir(home) := i])
  {
  }

  lemma MayStash(home: string, d: Dirs)
    requires Holds(d, home) && OldDir(home) !in d
    ensures KeepsData(home, d, Renamed(d, home, OldDir(home)))
  {
  }

  lemma MaySetAside(home: string, d: Dirs)
    requires Holds(d, OldDir(home)) && home in d && NewDir(home) !in d
    ensures KeepsData(home, d, Renamed(d, home, NewDir(home)))
  {
  }

  lemma MayInstall(home: string, d: Dirs, src: string)
    requires Holds(d, OldDir(home)) && home !in d
    requires src in d && (src == OldDir(home) || src == NewDir(home))
    ensures KeepsData(home, d, Renamed(d, src, home))
  {
  }
}
