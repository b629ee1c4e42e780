/** scripts/postgres_backup.sh: which old backups are deleted before a new one is made. */
module BackupRetention {
  import opened Wrappers

  /** A line of backup-list; times are seconds since the epoch. */
  datatype Backup = Backup(name: string, time: int)

  const DAY := 86400

  /** The division of shell arithmetic, which truncates toward zero. */
  function TruncDiv(a: int, b: nat): int
    requires b > 0
  {
    if a >= 0 then a / b else -((-a) / b)
  }

  /** BACKUP_NUM_TO_RETAIN, but at least two. */
  function Retained(configured: int): (days: nat)
    ensures days >= 2 && days >= configured && (days == 2 || days == configured)
  {
    if configured < 2 then 2 else configured
  }

  predicate Expired(b: Backup, now: int, days: nat) {
    TruncDiv(now - b.time, DAY) >= days
  }

  /** Truncation does not matter: expired means at least that many whole days old,
      and a backup from the future is not. */
  lemma ExpiredIsOld(b: Backup, now: int, days: nat)
    requires days >= 1
    ensures Expired(b, now, days) <==> now - b.time >= days * DAY
  {
  }

  /** LEFT: how many of the backups are not expired. */
  function Fresh(list: seq<Backup>, now: int, days: nat): nat {
    if list == [] then 0
    else
      Fresh(list[..|list| - 1], now, days) + if Expired(list[|list| - 1], now, days) then 0 else 1
  }

  /** BEFORE: the newest expired backup, the first of equals. */
  function NewestExpired(list: seq<Backup>, now: int, days: nat): (r: Option<Backup>)
    ensures r.Some? ==> r.value in list && Expired(r.value, now, days)
    ensures r.Some? ==> forall b :: b in list && Expired(b, now, days) ==> b.time <= r.value.time
    ensures r.None? ==> forall b :: b in list ==> !Expired(b, now, days)
  {
    if list == [] then None
    else
      var b, before := list[|list| - 1], NewestExpired(list[..|list| - 1], now, days);
      assert forall c :: c in list ==> c in list[..|list| - 1] || c == b;
      if Expired(b, now, days) && (before.None? || b.time > before.value.time) then Some(b) else before
  }

  /** delete before a backup: of the strictly older ones, those the tool removes. */
  function Kept(list: seq<Backup>, time: int, removes: Backup -> bool): (r: seq<Backup>)
    ensures |r| <= |list|
    ensures forall b :: b in r <==> b in list && !(b.time < time && removes(b))
  {
    if list == [] then []
    else
      var b, before := list[|list| - 1], Kept(list[..|list| - 1], time, removes);
      assert forall c :: c in list <==> c in list[..|list| - 1] || c == b;
      if b.time < time && removes(b) then before else before + [b]
  }

  ghost predicate Distinct(list: seq<Backup>) {
    && (forall i :: 0 <= i < |list| ==> list[i].name != "")
    && forall i, j :: 0 <= i < j < |list| ==> list[i].name != list[j].name
  }

  /** Deleting before the newest expired backup keeps it and all that are not expired. */
  lemma {:induction false} KeptEnough(list: seq<Backup>, now: int, days: nat, before: Backup, removes: Backup -> bool)
    requires days >= 1 && Expired(before, now, days)
    ensures |Kept(list, before.time, removes)| >= Fresh(list, now, days) + if before in list then 1 else 0
  {
    if list != [] {
      var b, rest := list[|list| - 1], list[..|list| - 1];
      KeptEnough(rest, now, days, before, removes);
      ExpiredIsOld(b, now, days);
      ExpiredIsOld(before, now, days);
      assert before in list <==> before in rest || before == b;
    }
  }

  /** Nothing is deleted when too few backups would be left or none is expired. */
  predicate NothingToDelete(list: seq<Backup>, now: int, days: nat) {
    NewestExpired(list, now, days).None? || Fresh(list, now, days) < days
  }

  /** The backups left before the new one is made. */
  function Survivors(list: seq<Backup>, now: int, days: nat, removes: Backup -> bool): seq<Backup> {
    if NothingToDelete(list, now, days) then list
    else Kept(list, NewestExpired(list, now, days).value.time, removes)
  }

  lemma LoopStart(now: int, days: nat)
    ensures Fresh([], now, days) == 0 && NewestExpired([], now, days) == None
  {
  }

  /** One line of the list. */
  lemma LoopStep(list: seq<Backup>, n: nat, now: int, days: nat)
    requires n < |list|
    ensures
      var b, before := list[n], NewestExpired(list[..n], now, days);
      && Fresh(list[..n + 1], now, days) == Fresh(list[..n], now, days) + (if Expired(b, now, days) then 0 else 1)
      && NewestExpired(list[..n + 1], now, days)
         == (if Expired(b, now, days) && (before.None? || b.time > before.value.time) then Some(b) else before)
      && (before.Some? ==> before.value in list[..n])
  {
    assert list[..n + 1][..n] == list[..n];
  }

  // ---- The script --------------------------------------------------------------------------

  class BackupStore {
    var backups: seq<Backup>

    /** The while-read loop over the list. */
    method Examine(now: int, days: nat) returns (before: string, beforeTime: int, left: nat)
      requires Distinct(backups)
      ensures left == Fresh(backups, now, days)
      ensures before == match NewestExpired(backups, now, days) case None => "" case Some(b) => b.name
      ensures before != "" ==> beforeTime == NewestExpired(backups, now, days).value.time
    {
      hide Expired, Fresh, NewestExpired;
      before, beforeTime, left := "", 0, 0;
      LoopStart(now, days);
      for n := 0 to |backups|
        invariant left == Fresh(backups[..n], now, days)
        invariant before == match NewestExpired(backups[..n], now, days) case None => "" case Some(b) => b.name
        invariant before != "" ==> beforeTime == NewestExpired(backups[..n], now, days).value.time
      {
        var b := backups[n];
        LoopStep(backups, n, now, days);
        if Expired(b, now, days) {
          if before == "" || b.time > beforeTime {
            before, beforeTime := b.name, b.time;
          }
        } else {
          left := left + 1;
        }
      }
      assert backups[..|backups|] == backups;
    }

    /** The tool finds the backup by its name and removes what it will of the older ones. */
    method DeleteBefore(name: string, removes: Backup -> bool)
      requires Distinct(backups) && exists b :: b in backups && b.name == name
      modifies this
      ensures forall b :: b in old(backups) && b.name == name ==> backups == Kept(old(backups), b.time, removes)
    {
      var i := 0;
      while backups[i].name != name
        invariant 0 <= i < |backups| && forall j :: 0 <= j < i ==> backups[j].name != name
        decreases |backups| - i
      {
        i := i + 1;
      }
      backups := Kept(backups, backups[i].time, removes);
    }

    /** One run. recovery is None when the server does not say; pushed is the new backup,
        if the push succeeds. The exit status of the script is returned. */
    method Run(recovery: Option<bool>, fromReplica: bool, configured: int, now: int,
               removes: Backup -> bool, pushed: Option<Backup>)
      returns (status: int)
      requires Distinct(backups)
      modifies this
      ensures recovery != Some(fromReplica) ==> backups == old(backups) && (status == 0 <==> recovery.Some?)
      ensures recovery == Some(fromReplica) ==>
                && backups == Survivors(old(backups), now, Retained(configured), removes)
                              + (if pushed.Some? then [pushed.value] else [])
                && (status == 0 <==> pushed.Some?)
    {
      hide Kept, NewestExpired, Expired, Fresh;
      if recovery != Some(fromReplica) {
        return if recovery.Some? then 0 else 1;
      }
      var days := if configured < 2 then 2 else configured;
      var before, beforeTime, left := Examine(now, days);
      if before != "" && left >= days {
        NewestExists(backups, now, days);
        DeleteBefore(before, removes);
      }
      if pushed.Some? {
        backups := backups + [pushed.value];
      }
      status := if pushed.Some? then 0 else 1;
    }
  }

  lemma NewestExists(list: seq<Backup>, now: int, days: nat)
    requires NewestExpired(list, now, days).Some?
    ensures NewestExpired(list, now, days).value in list
  {
  }

  // ---- What is retained ------------------------------------------------------------------------

  /** Every removed backup is more than N days old, and when any is removed at least N + 1
      remain. */
  lemma RemovesOnlyOld(list: seq<Backup>, now: int, days: nat, removes: Backup -> bool)
    requires days >= 1
    ensures
      var left := Survivors(list, now, days, removes);
      && (forall b :: b in left ==> b in list)
      && (forall b :: b in list && b !in left ==> now - b.time > days * DAY)
      && (left != list ==> |left| >= days + 1)
      && |left| >= if |list| < days + 1 then |list| else days + 1
  {
    if !NothingToDelete(list, now, days) {
      var before := NewestExpired(list, now, days).value;
      KeptEnough(list, now, days, before, removes);
      ExpiredIsOld(before, now, days);
    }
  }

  /** LEFT is the number of backups younger than N days. */
  lemma {:induction false} FreshCounts(list: seq<Backup>, now: int, days: nat)
    requires days >= 1
    ensures Fresh(list, now, days) == |set i: nat | i < |list| && now - list[i].time < days * DAY|
  {
    var young := set i: nat | i < |list| && now - list[i].time < days * DAY;
    if list != [] {
      var n, rest := |list| - 1, list[..|list| - 1];
      FreshCounts(rest, now, days);
      ExpiredIsOld(list[n], now, days);
      var before := set i: nat | i < |rest| && now - rest[i].time < days * DAY;
      assert young == before + if now - list[n].time < days * DAY then {n} else {};
    } else {
      assert young == {};
    }
  }

  /** With at least N backups younger than N days and one that is not, every backup older than
      the newest such is gone that the tool removes. With fewer, or none, nothing is removed. */
  lemma RemovesExactly(list: seq<Backup>, now: int, days: nat, removes: Backup -> bool, newest: Backup)
    requires days >= 1 && newest in list && now - newest.time >= days * 86400
    requires forall b :: b in list && now - b.time >= days * 86400 ==> b.time <= newest.time
    ensures
      var left := Survivors(list, now, days, removes);
      if |set i: nat | i < |list| && now - list[i].time < days * 86400| >= days then
        forall b :: b in list ==> (b in left <==> b.time >= newest.time || !removes(b))
      else left == list
  {
    FreshCounts(list, now, days);
    ExpiredIsOld(newest, now, days);
    var before := NewestExpired(list, now, days);
    ExpiredIsOld(before.value, now, days);
  }

  /** Without a backup that is N days old nothing is removed. */
  lemma RemovesNothing(list: seq<Backup>, now: int, days: nat, removes: Backup -> bool)
    requires days >= 1 && forall b :: b in list ==> now - b.time < days * DAY
    ensures Survivors(list, now, days, removes) == list
  {
    if NewestExpired(list, now, days).Some? {
      ExpiredIsOld(NewestExpired(list, now, days).value, now, days);
    }
  }

  /** The recovery window: a backup at least N days old is left if there was one. */
  lemma KeepsRecoveryWindow(list: seq<Backup>, now: int, days: nat, removes: Backup -> bool, b: Backup)
    requires days >= 1 && b in list && now - b.time >= days * DAY
    ensures exists c :: c in Survivors(list, now, days, removes) && now - c.time >= days * DAY
  {
    ExpiredIsOld(b, now, days);
    var before := NewestExpired(list, now, days).value;
    ExpiredIsOld(before, now, days);
    assert before in Survivors(list, now, days, removes);
  }

  // ---- Over many runs --------------------------------------------------------------------------

  /** A run on the right role; pushed is None when the push failed. */
  datatype Run = Run(now: int, days: nat, removes: Backup -> bool, pushed: Option<Backup>)

  function After(list: seq<Backup>, run: Run): seq<Backup> {
    Survivors(list, run.now, run.days, run.removes) + if run.pushed.Some? then [run.pushed.value] else []
  }

  function AfterAll(list: seq<Backup>, runs: seq<Run>): seq<Backup> {
    if runs == [] then list else After(AfterAll(list, runs[..|runs| - 1]), runs[|runs| - 1])
  }

  function Pushes(runs: seq<Run>): nat {
    if runs == [] then 0 else Pushes(runs[..|runs| - 1]) + if runs[|runs| - 1].pushed.Some? then 1 else 0
  }

  function Min(a: nat, b: nat): nat {
    if a < b then a else b
  }

  /** However the settings change from run to run, as long as they are at least N, and whichever
      pushes fail: the backups grow in number with the pushes until there are N + 1, and are
      never fewer again; right after a push there is one more. */
  lemma {:induction false} CountOverRuns(list: seq<Backup>, runs: seq<Run>, days: nat)
    requires days >= 1 && forall i :: 0 <= i < |runs| ==> runs[i].days >= days
    ensures
      var pushed := runs != [] && runs[|runs| - 1].pushed.Some?;
      && |AfterAll(list, runs)| >= Min(|list| + Pushes(runs), days + if pushed then 2 else 1)
      && (runs != [] ==>
            |AfterAll(list, runs)| >= Min(|AfterAll(list, runs[..|runs| - 1])|, days + 1) + if pushed then 1 else 0)
  {
    hide Survivors;
    if runs != [] {
      var run := runs[|runs| - 1];
      CountOverRuns(list, runs[..|runs| - 1], days);
      RemovesOnlyOld(AfterAll(list, runs[..|runs| - 1]), run.now, run.days, run.removes);
    }
  }

  /** A backup survives every run made while it is at most N days old. */
  lemma {:induction false} YoungSurvive(list: seq<Backup>, runs: seq<Run>, b: Backup)
    requires b in list
    requires forall i :: 0 <= i < |runs| ==> runs[i].days >= 1 && runs[i].now - b.time <= runs[i].days * DAY
    ensures b in AfterAll(list, runs)
  {
    hide Survivors;
    if runs != [] {
      var run := runs[|runs| - 1];
      YoungSurvive(list, runs[..|runs| - 1], b);
      RemovesOnlyOld(AfterAll(list, runs[..|runs| - 1]), run.now, run.days, run.removes);
    }
  }

  /** Once a backup N days old exists, one exists after every later run. */
  lemma {:induction false} WindowOverRuns(list: seq<Backup>, runs: seq<Run>, days: nat, b: Backup, now: int)
    requires days >= 1 && b in list && now - b.time >= days * DAY
    requires forall i :: 0 <= i < |runs| ==> runs[i].days == days && runs[i].now >= now
    requires forall i, j :: 0 <= i < j < |runs| ==> runs[i].now <= runs[j].now
    ensures exists c ::
              && c in AfterAll(list, runs)
              && (if runs == [] then now else runs[|runs| - 1].now) - c.time >= days * DAY
  {
    hide Survivors;
    if runs == [] {
      assert b in AfterAll(list, runs);
    } else {
      var n := |runs| - 1;
      WindowOverRuns(list, runs[..n], days, b, now);
      var last := if n == 0 then now else runs[n - 1].now;
      var c :| c in AfterAll(list, runs[..n]) && last - c.time >= days * DAY;
      KeepsRecoveryWindow(AfterAll(list, runs[..n]), runs[n].now, days, runs[n].removes, c);
      var d :| d in Survivors(AfterAll(list, runs[..n]), runs[n].now, days, runs[n].removes)
               && runs[n].now - d.time >= days * DAY;
      assert d in AfterAll(list, runs);
    }
  }
}
