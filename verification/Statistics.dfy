/** The custom statistics targets of major_upgrade/inplace_upgrade.py: reset before
    the first analyze, restored after it. */
module Statistics {
  import opened Wrappers

  datatype Column = Column(db: string, table: string, name: string)

  datatype Row = Row(table: string, column: string, target: int)

  /** Statistics targets of all columns; -1 is the default. */
  type Targets = map<Column, int>

  /** A target for one column: what an ALTER sets, and what is saved. */
  datatype Entry = Entry(column: Column, target: int)

  // ---- What an ALTER does ----------------------------------------------------------------

  /** The tables below a table of a database: its partitions, and what inherits from it. */
  type Below = (string, string) -> set<string>

  /** ALTER TABLE without ONLY reaches the column of that name in every table below. */
  predicate Covers(below: Below, c: Column, o: Column) {
    o.db == c.db && o.name == c.name && (o.table == c.table || o.table in below(c.db, c.table))
  }

  predicate CoveredBy(below: Below, es: seq<Entry>, c: Column) {
    exists e :: e in es && Covers(below, e.column, c)
  }

  function Altered(below: Below, t: Targets, e: Entry): Targets {
    map c | c in t :: if Covers(below, e.column, c) then e.target else t[c]
  }

  /** One ALTER after the other. */
  function Applied(below: Below, t: Targets, es: seq<Entry>): Targets {
    if es == [] then t else Altered(below, Applied(below, t, es[..|es| - 1]), es[|es| - 1])
  }

  /** The last of them that reaches a column. */
  function LastOn(below: Below, es: seq<Entry>, c: Column): Option<Entry> {
    if es == [] then None
    else if Covers(below, es[|es| - 1].column, c) then Some(es[|es| - 1])
    else LastOn(below, es[..|es| - 1], c)
  }

  lemma {:induction false} AppliedAt(below: Below, t: Targets, es: seq<Entry>, c: Column)
    ensures Applied(below, t, es).Keys == t.Keys
    ensures LastOn(below, es, c).Some? ==> LastOn(below, es, c).value in es && Covers(below, LastOn(below, es, c).value.column, c)
    ensures LastOn(below, es, c).Some? <==> CoveredBy(below, es, c)
    ensures c in t ==>
              Applied(below, t, es)[c] == if LastOn(below, es, c).Some? then LastOn(below, es, c).value.target else t[c]
  {
    if es != [] {
      var rest, last := es[..|es| - 1], es[|es| - 1];
      AppliedAt(below, t, rest, c);
      assert es == rest + [last];
    }
  }

  lemma {:induction false} AppliedConcat(below: Below, t: Targets, es: seq<Entry>, fs: seq<Entry>)
    ensures Applied(below, t, es + fs) == Applied(below, Applied(below, t, es), fs)
  {
    if fs == [] {
      assert es + fs == es;
    } else {
      AppliedConcat(below, t, es, fs[..|fs| - 1]);
      assert (es + fs)[..|es + fs| - 1] == es + fs[..|fs| - 1];
    }
  }

  // ---- What is saved -----------------------------------------------------------------------

  /** A dictionary, in the order of its keys. */
  type Dict<V> = seq<(string, V)>

  /** database -> table -> column -> target */
  type Saved = Dict<Dict<Dict<int>>>

  function Position<V>(d: Dict<V>, key: string): (i: nat)
    ensures i <= |d| && (i < |d| ==> d[i].0 == key)
  {
    if d == [] || d[0].0 == key then 0 else 1 + Position(d[1..], key)
  }

  /** d[key], of a defaultdict. */
  function Find<V>(d: Dict<V>, key: string, default: V): V {
    var i := Position(d, key);
    if i < |d| then d[i].1 else default
  }

  function Put<V>(d: Dict<V>, key: string, v: V): Dict<V> {
    var i := Position(d, key);
    if i < |d| then d[i := (key, v)] else d + [(key, v)]
  }

  function Save(s: Saved, c: Column, target: int): Saved {
    var tables := Find(s, c.db, []);
    var columns := Find(tables, c.table, []);
    Put(s, c.db, Put(tables, c.table, Put(columns, c.name, target)))
  }

  /** The entries in the order of a loop over the dictionary. */
  function OfTable(db: string, table: string, columns: Dict<int>): seq<Entry> {
    if columns == [] then []
    else
      var (name, target) := columns[|columns| - 1];
      OfTable(db, table, columns[..|columns| - 1]) + [Entry(Column(db, table, name), target)]
  }

  function OfDatabase(db: string, tables: Dict<Dict<int>>): seq<Entry> {
    if tables == [] then []
    else OfDatabase(db, tables[..|tables| - 1]) + OfTable(db, tables[|tables| - 1].0, tables[|tables| - 1].1)
  }

  function Entries(s: Saved): seq<Entry> {
    if s == [] then [] else Entries(s[..|s| - 1]) + OfDatabase(s[|s| - 1].0, s[|s| - 1].1)
  }

  lemma {:induction false} InTable(db: string, table: string, columns: Dict<int>, e: Entry)
    ensures e in OfTable(db, table, columns)
            <==> exists i :: 0 <= i < |columns| && e == Entry(Column(db, table, columns[i].0), columns[i].1)
  {
    if columns != [] {
      InTable(db, table, columns[..|columns| - 1], e);
    }
  }

  lemma {:induction false} InDatabase(db: string, tables: Dict<Dict<int>>, e: Entry)
    ensures e in OfDatabase(db, tables) <==> exists i :: 0 <= i < |tables| && e in OfTable(db, tables[i].0, tables[i].1)
  {
    hide OfTable;
    if tables != [] {
      InDatabase(db, tables[..|tables| - 1], e);
    }
  }

  lemma DatabaseOf(db: string, tables: Dict<Dict<int>>, e: Entry)
    requires e in OfDatabase(db, tables)
    ensures e.column.db == db
  {
    hide OfTable, OfDatabase;
    InDatabase(db, tables, e);
    var i :| 0 <= i < |tables| && e in OfTable(db, tables[i].0, tables[i].1);
    InTable(db, tables[i].0, tables[i].1, e);
  }

  lemma {:induction false} InEntries(s: Saved, e: Entry)
    ensures e in Entries(s) <==> exists i :: 0 <= i < |s| && e in OfDatabase(s[i].0, s[i].1)
  {
    hide OfDatabase;
    if s != [] {
      InEntries(s[..|s| - 1], e);
    }
  }

  predicate Unsaved(s: Saved, c: Column) {
    forall e :: e in Entries(s) ==> e.column != c
  }

  /** A column is added once, and no other entry changes. */
  lemma SaveAdds(s: Saved, c: Column, target: int, e: Entry)
    requires Unsaved(s, c)
    ensures e in Entries(Save(s, c, target)) <==> e in Entries(s) || e == Entry(c, target)
  {
    var tables := Find(s, c.db, []);
    var columns := Find(tables, c.table, []);
    var newColumns := Put(columns, c.name, target);
    var newTables := Put(tables, c.table, newColumns);
    var i := Position(s, c.db);
    forall x
      ensures x in OfTable(c.db, c.table, newColumns) <==> x in OfTable(c.db, c.table, columns) || x == Entry(c, target)
    {
      UnsavedBelow(s, c);
      PutColumn(c, columns, target, x);
    }
    forall x
      ensures x in OfDatabase(c.db, newTables) <==> x in OfDatabase(c.db, tables) || x == Entry(c, target)
    {
      PutTable(c, tables, newColumns, target, x);
    }
    PutDatabase(c, s, newTables, target, e);
  }

  lemma UnsavedBelow(s: Saved, c: Column)
    requires Unsaved(s, c)
    ensures forall e :: e in OfTable(c.db, c.table, Find(Find(s, c.db, []), c.table, [])) ==> e.column != c
  {
    var tables := Find(s, c.db, []);
    forall e | e in OfTable(c.db, c.table, Find(tables, c.table, []))
      ensures e in Entries(s)
    {
      InDatabase(c.db, tables, e);
      InEntries(s, e);
      assert Position(tables, c.table) < |tables| && Position(s, c.db) < |s|;
    }
  }

  lemma PutColumn(c: Column, columns: Dict<int>, target: int, e: Entry)
    requires forall x :: x in OfTable(c.db, c.table, columns) ==> x.column != c
    ensures e in OfTable(c.db, c.table, Put(columns, c.name, target))
            <==> e in OfTable(c.db, c.table, columns) || e == Entry(c, target)
  {
    hide OfTable;
    var i, put := Position(columns, c.name), Put(columns, c.name, target);
    if i < |columns| {
      InTable(c.db, c.table, columns, Entry(c, columns[i].1));
    } else {
      InTable(c.db, c.table, columns, e);
      InTable(c.db, c.table, put, e);
      assert put[i] == (c.name, target);
      assert forall k :: 0 <= k < i ==> put[k] == columns[k];
    }
  }

  lemma PutTable(c: Column, tables: Dict<Dict<int>>, columns: Dict<int>, target: int, e: Entry)
    requires e in OfTable(c.db, c.table, columns)
             <==> e in OfTable(c.db, c.table, Find(tables, c.table, [])) || e == Entry(c, target)
    ensures e in OfDatabase(c.db, Put(tables, c.table, columns)) <==> e in OfDatabase(c.db, tables) || e == Entry(c, target)
  {
    hide OfDatabase, OfTable;
    var i, put := Position(tables, c.table), Put(tables, c.table, columns);
    InDatabase(c.db, tables, e);
    InDatabase(c.db, put, e);
    InTable(c.db, c.table, [], e);
    assert put[i] == (c.table, columns);
    assert forall k :: 0 <= k < |tables| && k != i ==> put[k] == tables[k];
  }

  lemma PutDatabase(c: Column, s: Saved, tables: Dict<Dict<int>>, target: int, e: Entry)
    requires e in OfDatabase(c.db, tables) <==> e in OfDatabase(c.db, Find(s, c.db, [])) || e == Entry(c, target)
    ensures e in Entries(Put(s, c.db, tables)) <==> e in Entries(s) || e == Entry(c, target)
  {
    hide OfDatabase, Entries;
    var i, put := Position(s, c.db), Put(s, c.db, tables);
    InEntries(s, e);
    InEntries(put, e);
    InDatabase(c.db, [], e);
    assert put[i] == (c.db, tables);
    assert forall k :: 0 <= k < |s| && k != i ==> put[k] == s[k];
  }

  /** Every database has a saved column. */
  predicate NoneEmpty(s: Saved) {
    forall i :: 0 <= i < |s| ==> OfDatabase(s[i].0, s[i].1) != []
  }

  lemma SaveFillsNone(s: Saved, c: Column, target: int)
    requires NoneEmpty(s) && Unsaved(s, c)
    ensures NoneEmpty(Save(s, c, target))
  {
    var tables := Find(s, c.db, []);
    var columns := Find(tables, c.table, []);
    var newColumns := Put(columns, c.name, target);
    UnsavedBelow(s, c);
    PutColumn(c, columns, target, Entry(c, target));
    PutTable(c, tables, newColumns, target, Entry(c, target));
    assert Entry(c, target) in OfDatabase(c.db, Put(tables, c.table, newColumns));
  }

  // ---- What a reset does -------------------------------------------------------------------

  /** The columns saved and all below them are at the default; no other has changed. */
  ghost function AfterReset(below: Below, original: Targets, es: seq<Entry>): Targets {
    map c | c in original :: if CoveredBy(below, es, c) then -1 else original[c]
  }

  /** What is saved are custom columns with their original targets. */
  ghost predicate Sound(original: Targets, s: Saved) {
    forall e :: e in Entries(s) ==> e.column in original && original[e.column] == e.target > 0
  }

  /** Wherever a reset stops. */
  ghost predicate Consistent(below: Below, original: Targets, now: Targets, s: Saved) {
    Sound(original, s) && NoneEmpty(s) && now == AfterReset(below, original, Entries(s))
  }

  lemma NothingSaved(below: Below, t: Targets)
    ensures Consistent(below, t, t, [])
  {
  }

  lemma SaveConsistent(below: Below, original: Targets, now: Targets, s: Saved, c: Column, target: int)
    requires Consistent(below, original, now, s) && Unsaved(s, c)
    requires c in original && original[c] == target > 0
    ensures Consistent(below, original, Altered(below, now, Entry(c, -1)), Save(s, c, target))
  {
    hide Entries, Save, NoneEmpty, Covers;
    SaveFillsNone(s, c, target);
    forall e
      ensures e in Entries(Save(s, c, target)) <==> e in Entries(s) || e == Entry(c, target)
    {
      SaveAdds(s, c, target, e);
    }
    forall o
      ensures CoveredBy(below, Entries(Save(s, c, target)), o) <==> CoveredBy(below, Entries(s), o) || Covers(below, c, o)
    {
      if CoveredBy(below, Entries(s), o) {
        var e :| e in Entries(s) && Covers(below, e.column, o);
        assert e in Entries(Save(s, c, target));
      }
      assert Entry(c, target) in Entries(Save(s, c, target));
    }
  }

  /** A custom column has not been touched. */
  lemma CustomIsOriginal(below: Below, original: Targets, now: Targets, s: Saved, c: Column)
    requires Consistent(below, original, now, s) && IsCustom(now, c)
    ensures c in original && original[c] == now[c] && Unsaved(s, c)
  {
    hide Entries;
    forall e | e in Entries(s)
      ensures e.column != c
    {
      assert e.column == c ==> CoveredBy(below, Entries(s), c);
    }
  }

  function ColumnOf(db: string, w: Row): Column {
    Column(db, w.table, w.column)
  }

  predicate IsCustom(t: Targets, c: Column) {
    c in t && t[c] > 0
  }

  predicate Distinct(rows: seq<Row>) {
    forall i, j :: 0 <= i < j < |rows| ==> rows[i] != rows[j]
  }

  /** The answer to the query: the custom columns of db, with their targets. */
  ghost predicate Listed(rows: seq<Row>, db: string, t: Targets) {
    && Distinct(rows)
    && (forall w :: w in rows ==> IsCustom(t, ColumnOf(db, w)) && t[ColumnOf(db, w)] == w.target)
    && (forall c :: IsCustom(t, c) && c.db == db ==> exists j :: 0 <= j < |rows| && ColumnOf(db, rows[j]) == c)
  }

  /** The rows from i on are still to be saved, and hold all custom columns of db. */
  ghost predicate Pending(rows: seq<Row>, i: nat, db: string, original: Targets, now: Targets, s: Saved) {
    && (forall j :: i <= j < |rows| ==>
          var c := ColumnOf(db, rows[j]);
          c in original && original[c] == rows[j].target > 0 && Unsaved(s, c))
    && (forall c :: IsCustom(now, c) && c.db == db ==> exists j :: i <= j < |rows| && ColumnOf(db, rows[j]) == c)
  }

  lemma AllPending(below: Below, rows: seq<Row>, db: string, original: Targets, now: Targets, s: Saved)
    requires Listed(rows, db, now) && Consistent(below, original, now, s)
    ensures Pending(rows, 0, db, original, now, s)
  {
    hide Consistent, Unsaved;
    forall j | 0 <= j < |rows|
      ensures
        var c := ColumnOf(db, rows[j]);
        c in original && original[c] == rows[j].target > 0 && Unsaved(s, c)
    {
      assert rows[j] in rows;
      CustomIsOriginal(below, original, now, s, ColumnOf(db, rows[j]));
    }
  }

  lemma PendingStep(below: Below, rows: seq<Row>, i: nat, db: string, original: Targets, now: Targets, s: Saved)
    requires i < |rows| && Distinct(rows) && Pending(rows, i, db, original, now, s)
    ensures
      var c := ColumnOf(db, rows[i]);
      Pending(rows, i + 1, db, original, Altered(below, now, Entry(c, -1)), Save(s, c, rows[i].target))
  {
    hide Entries, Save;
    var d := ColumnOf(db, rows[i]);
    var u, t := Altered(below, now, Entry(d, -1)), Save(s, d, rows[i].target);
    forall j | i + 1 <= j < |rows|
      ensures Unsaved(t, ColumnOf(db, rows[j]))
    {
      assert rows[i] != rows[j];
      assert original[d] == rows[i].target && original[ColumnOf(db, rows[j])] == rows[j].target;
      assert ColumnOf(db, rows[j]) != d;
      forall e | e in Entries(t)
        ensures e.column != ColumnOf(db, rows[j])
      {
        SaveAdds(s, d, rows[i].target, e);
      }
    }
    forall c | IsCustom(u, c) && c.db == db
      ensures exists j :: i + 1 <= j < |rows| && ColumnOf(db, rows[j]) == c
    {
      assert Covers(below, d, d);
      assert c != d && IsCustom(now, c);
    }
  }

  /** No column becomes custom. */
  ghost predicate OnlyReset(t: Targets, u: Targets) {
    forall c :: IsCustom(u, c) ==> IsCustom(t, c)
  }

  // ---- What analyze comes to, on values --------------------------------------------------------

  /** What the servers answer: the list of databases, which connections, queries and ALTERs
      succeed, and whether vacuumdb can be started (its own list of databases can raise). */
  datatype Answers = Answers(
    databases: Call<seq<string>>,
    connects: (string, bool) -> bool,     // database, for the restore
    selects: string -> bool,
    alters: (Column, int) -> bool,
    vacuums: bool)

  /** The databases before the first that cannot be reached again. */
  function Reached(answers: Answers, s: Saved): Saved {
    if s == [] || !answers.connects(s[0].0, true) then [] else [s[0]] + Reached(answers, s[1..])
  }

  /** The ALTERs that are not refused. */
  function Accepted(answers: Answers, es: seq<Entry>): seq<Entry> {
    if es == [] then []
    else
      var rest, e := Accepted(answers, es[..|es| - 1]), es[|es| - 1];
      if answers.alters(e.column, e.target) then rest + [e] else rest
  }

  /** The ALTERs that a restore of s applies. */
  function Restored(answers: Answers, s: Saved): seq<Entry> {
    Accepted(answers, Entries(Reached(answers, s)))
  }

  /** The targets after analyze, which saved s on its way. */
  ghost function Analyzed(answers: Answers, below: Below, original: Targets, s: Saved): Targets {
    Applied(below, AfterReset(below, original, Entries(s)), if answers.vacuums then Restored(answers, s) else [])
  }

  lemma {:induction false} InAccepted(answers: Answers, es: seq<Entry>, e: Entry)
    ensures e in Accepted(answers, es) <==> e in es && answers.alters(e.column, e.target)
  {
    if es != [] {
      InAccepted(answers, es[..|es| - 1], e);
      assert es == es[..|es| - 1] + [es[|es| - 1]];
    }
  }

  lemma {:induction false} AllAccepted(answers: Answers, es: seq<Entry>)
    requires forall e :: e in es ==> answers.alters(e.column, e.target)
    ensures Accepted(answers, es) == es
  {
    if es != [] {
      AllAccepted(answers, es[..|es| - 1]);
    }
  }

  lemma {:induction false} AcceptedConcat(answers: Answers, es: seq<Entry>, fs: seq<Entry>)
    ensures Accepted(answers, es + fs) == Accepted(answers, es) + Accepted(answers, fs)
  {
    if fs == [] {
      assert es + fs == es;
    } else {
      AcceptedConcat(answers, es, fs[..|fs| - 1]);
      assert (es + fs)[..|es + fs| - 1] == es + fs[..|fs| - 1];
    }
  }

  lemma {:induction false} ReachedIs(answers: Answers, s: Saved, i: nat)
    requires i <= |s| && forall j :: 0 <= j < i ==> answers.connects(s[j].0, true)
    requires i < |s| ==> !answers.connects(s[i].0, true)
    ensures Reached(answers, s) == s[..i]
  {
    if i > 0 {
      ReachedIs(answers, s[1..], i - 1);
      assert s[..i] == [s[0]] + s[1..][..i - 1];
    }
  }

  lemma {:induction false} ReachedConnects(answers: Answers, s: Saved, i: nat)
    requires i < |Reached(answers, s)|
    ensures answers.connects(Reached(answers, s)[i].0, true)
  {
    if i > 0 {
      ReachedConnects(answers, s[1..], i - 1);
    }
  }

  /** Nothing fails that the reset of these databases needs. */
  ghost predicate ResetWorks(answers: Answers, t: Targets, names: seq<string>) {
    forall db :: db in names ==> DatabaseWorks(answers, t, db)
  }

  ghost predicate DatabaseWorks(answers: Answers, t: Targets, db: string) {
    && answers.connects(db, false) && answers.selects(db)
    && forall c: Column :: c in t && c.db == db && t[c] > 0 ==> answers.alters(c, -1)
  }

  /** Every custom column of the databases is saved with its target, and none is custom now. */
  ghost predicate AllReset(original: Targets, now: Targets, s: Saved, names: seq<string>) {
    forall c: Column :: c.db in names ==>
      && !IsCustom(now, c)
      && (c in original && original[c] > 0 ==> Entry(c, original[c]) in Entries(s))
  }

  // ---- When all targets return --------------------------------------------------------------------

  /** The targets the reset changed: the last ALTER of es that reaches such a column sets what
      it had; a column below that had the default may also be reached by none. */
  ghost predicate LastsFit(below: Below, original: Targets, s: Saved, es: seq<Entry>) {
    forall c :: c in original && CoveredBy(below, Entries(s), c) ==>
      original[c] == if LastOn(below, es, c).Some? then LastOn(below, es, c).value.target else -1
  }

  ghost predicate AllReachable(answers: Answers, s: Saved) {
    answers.vacuums && forall i :: 0 <= i < |s| ==> answers.connects(s[i].0, true)
  }

  /** All targets return exactly when nothing was reset, or vacuumdb can be started, every
      saved database can be reached again, and for each column that was reset or lies below
      one the last accepted ALTER of the restore that reaches it sets its own target. */
  lemma AllReturnIff(answers: Answers, below: Below, original: Targets, now: Targets, s: Saved)
    requires Consistent(below, original, now, s)
    ensures Analyzed(answers, below, original, s) == original
            <==> s == [] || (AllReachable(answers, s) && LastsFit(below, original, s, Accepted(answers, Entries(s))))
  {
    hide Entries, Accepted, Restored, Covers, Reached, LastOn, Applied;
    var final := Analyzed(answers, below, original, s);
    var restored := if answers.vacuums then Restored(answers, s) else [];
    ResetAt(answers, below, original, s, restored);
    if final == original {
      forall i | 0 <= i < |s|
        ensures answers.vacuums && answers.connects(s[i].0, true)
      {
        OwnConnection(answers, below, original, s, i);
      }
    }
    if final == original && s != [] {
      OwnConnection(answers, below, original, s, 0);
    }
    if AllReachable(answers, s) {
      ReachedIs(answers, s, |s|);
      assert s[..|s|] == s;
      assert restored == Accepted(answers, Entries(s)) by {
        AllRestored(answers, s);
      }
    }
    if s == [] {
      NoneLeft(answers, below, original);
    }
  }

  lemma AllRestored(answers: Answers, s: Saved)
    requires Reached(answers, s) == s
    ensures Restored(answers, s) == Accepted(answers, Entries(s))
  {
  }

  lemma NoneLeft(answers: Answers, below: Below, original: Targets)
    ensures Analyzed(answers, below, original, []) == original
  {
    assert Restored(answers, []) == [];
  }

  /** The final targets, column by column. */
  lemma ResetAt(answers: Answers, below: Below, original: Targets, s: Saved, restored: seq<Entry>)
    requires restored == if answers.vacuums then Restored(answers, s) else []
    ensures
      var final := Analyzed(answers, below, original, s);
      && final.Keys == original.Keys
      && (final == original <==> LastsFit(below, original, s, restored))
  {
    hide Entries, Accepted, Covers, Reached, LastOn, Applied, Restored;
    var reset, final := AfterReset(below, original, Entries(s)), Analyzed(answers, below, original, s);
    forall c | c in original
      ensures final.Keys == original.Keys
      ensures final[c] == if LastOn(below, restored, c).Some? then LastOn(below, restored, c).value.target else reset[c]
      ensures !CoveredBy(below, Entries(s), c) ==> LastOn(below, restored, c).None?
    {
      AppliedAt(below, reset, restored, c);
      if LastOn(below, restored, c).Some? {
        RestoredIsSaved(answers, s, LastOn(below, restored, c).value);
      }
    }
    AppliedAt(below, reset, restored, Column("", "", ""));
  }

  lemma RestoredIsSaved(answers: Answers, s: Saved, e: Entry)
    requires e in Restored(answers, s)
    ensures e in Entries(s)
    ensures exists i :: 0 <= i < |s| && s[i].0 == e.column.db && answers.connects(s[i].0, true)
  {
    hide Entries, Accepted;
    var part := Reached(answers, s);
    InAccepted(answers, Entries(part), e);
    InEntries(part, e);
    InEntries(s, e);
    ReachedPrefix(answers, s);
    var i :| 0 <= i < |part| && e in OfDatabase(part[i].0, part[i].1);
    ReachedConnects(answers, s, i);
    DatabaseOf(part[i].0, part[i].1, e);
    assert part[i] == s[i];
  }

  lemma {:induction false} ReachedPrefix(answers: Answers, s: Saved)
    ensures Reached(answers, s) <= s
  {
    if s != [] {
      ReachedPrefix(answers, s[1..]);
    }
  }

  /** When all targets return the database of each saved column was reached. */
  lemma OwnConnection(answers: Answers, below: Below, original: Targets, s: Saved, i: nat)
    requires Sound(original, s) && NoneEmpty(s) && i < |s| && Analyzed(answers, below, original, s) == original
    ensures answers.vacuums && exists j :: 0 <= j < |s| && s[j].0 == s[i].0 && answers.connects(s[j].0, true)
    ensures answers.connects(s[i].0, true)
  {
    hide Accepted, Reached, LastOn, Applied, Restored, Entries, OfDatabase;
    var restored := if answers.vacuums then Restored(answers, s) else [];
    var e := OfDatabase(s[i].0, s[i].1)[0];
    DatabaseOf(s[i].0, s[i].1, e);
    InEntries(s, e);
    assert Covers(below, e.column, e.column);
    assert CoveredBy(below, Entries(s), e.column);
    ResetAt(answers, below, original, s, restored);
    AppliedAt(below, original, restored, e.column);
    assert LastOn(below, restored, e.column).Some?;
    RestoredIsSaved(answers, s, LastOn(below, restored, e.column).value);
  }

  /** No table below a reset one has a column of the catalog. */
  ghost predicate NoneBelow(below: Below, original: Targets, s: Saved) {
    forall e, c :: e in Entries(s) && c in original && Covers(below, e.column, c) ==> c == e.column
  }

  /** Without partitions and inheritance: exactly when moreover no ALTER of the restore is
      refused. */
  lemma PlainTablesReturnIff(answers: Answers, below: Below, original: Targets, now: Targets, s: Saved)
    requires Consistent(below, original, now, s) && NoneBelow(below, original, s)
    ensures Analyzed(answers, below, original, s) == original
            <==> s == [] || (AllReachable(answers, s) && forall e :: e in Entries(s) ==> answers.alters(e.column, e.target))
  {
    hide Entries, Accepted, LastOn, Applied, Analyzed, NoneEmpty, AfterReset, Covers;
    AllReturnIff(answers, below, original, now, s);
    var es := Accepted(answers, Entries(s));
    forall c | c in original && CoveredBy(below, Entries(s), c)
      ensures (original[c] == if LastOn(below, es, c).Some? then LastOn(below, es, c).value.target else -1)
              <==> answers.alters(c, original[c])
    {
      var e :| e in Entries(s) && Covers(below, e.column, c);
      assert e.column == c && original[c] == e.target > 0;
      AppliedAt(below, original, es, c);
      InAccepted(answers, Entries(s), e);
      if LastOn(below, es, c).Some? {
        var last := LastOn(below, es, c).value;
        InAccepted(answers, Entries(s), last);
        assert last.column == c && last == e;
      }
    }
    forall e | e in Entries(s)
      ensures CoveredBy(below, Entries(s), e.column)
    {
      CoversItself(below, e.column);
    }
    if s == [] {
      assert Entries(s) == [] by {
        NoEntries();
      }
    }
  }

  lemma NoEntries()
    ensures Entries([]) == []
  {
  }

  lemma CoversItself(below: Below, c: Column)
    ensures Covers(below, c, c)
  {
  }

  /** When nothing fails: exactly when the last of the saved columns above each column that was
      reset, or that column itself, had its target. */
  lemma NothingFailsReturnIff(answers: Answers, below: Below, original: Targets, now: Targets, s: Saved)
    requires Consistent(below, original, now, s) && AllReachable(answers, s)
    requires forall e :: e in Entries(s) ==> answers.alters(e.column, e.target)
    ensures Analyzed(answers, below, original, s) == original <==> LastsFit(below, original, s, Entries(s))
  {
    hide Accepted, Analyzed, LastOn, AfterReset;
    AllReturnIff(answers, below, original, now, s);
    AllAccepted(answers, Entries(s));
  }

  /** A table with one partition. */
  const PARTITIONED: Below := (db: string, table: string) => if table == "t" then {"t_1"} else {}

  const OF_TABLE := Column("db", "t", "c")
  const OF_PARTITION := Column("db", "t_1", "c")

  lemma PartitionIsBelow()
    ensures OF_TABLE.table != OF_PARTITION.table && OF_TABLE.db == OF_PARTITION.db == "db"
    ensures Covers(PARTITIONED, OF_TABLE, OF_PARTITION)
  {
    assert |OF_TABLE.table| != |OF_PARTITION.table|;
  }

  /** At an input: a table with a target for a column, and a partition with none for it. The
      restore gives the partition the target of the table. */
  lemma PartitionTakesTarget(answers: Answers)
    requires answers.vacuums && answers.connects("db", true)
    requires forall c, target :: answers.alters(c, target)
    ensures
      var original, s := map[OF_TABLE := 100, OF_PARTITION := -1], Save([], OF_TABLE, 100);
      && Consistent(PARTITIONED, original, map[OF_TABLE := -1, OF_PARTITION := -1], s)
      && Analyzed(answers, PARTITIONED, original, s) == map[OF_TABLE := 100, OF_PARTITION := 100]
  {
    hide Save, Entries, Restored, Consistent, Analyzed, Covers, PARTITIONED, OF_TABLE, OF_PARTITION;
    var s := Save([], OF_TABLE, 100);
    PartitionIsBelow();
    SavedOne(OF_TABLE, 100);
    AllBack(answers, s);
    TakenBelow(answers, PARTITIONED, s, OF_TABLE, OF_PARTITION);
  }

  lemma TakenBelow(answers: Answers, below: Below, s: Saved, c: Column, o: Column)
    requires c != o && Covers(below, c, o) && answers.vacuums
    requires s == [(c.db, [(c.table, [(c.name, 100)])])]
    requires Entries(s) == [Entry(c, 100)] == Restored(answers, s)
    ensures Consistent(below, map[c := 100, o := -1], map[c := -1, o := -1], s)
    ensures Analyzed(answers, below, map[c := 100, o := -1], s) == map[c := 100, o := 100]
  {
    assert NoneEmpty(s);
    hide Entries, Restored, Applied, Covers, NoneEmpty;
    var original, reset := map[c := 100, o := -1], map[c := -1, o := -1];
    assert Entry(c, 100) in Entries(s);
    CoversItself(below, c);
    assert AfterReset(below, original, Entries(s)) == reset;
    OneApplied(below, reset, Entry(c, 100));
    hide AfterReset, CoveredBy;
    assert Altered(below, reset, Entry(c, 100)) == map[c := 100, o := 100];
  }

  lemma OneApplied(below: Below, t: Targets, e: Entry)
    ensures Applied(below, t, [e]) == Altered(below, t, e)
  {
    assert [e][..0] == [];
    assert Applied(below, t, []) == t;
  }

  /** When nothing fails everything saved is restored. */
  lemma AllBack(answers: Answers, s: Saved)
    requires forall i :: 0 <= i < |s| ==> answers.connects(s[i].0, true)
    requires forall c, target :: answers.alters(c, target)
    ensures Restored(answers, s) == Entries(s)
  {
    ReachedIs(answers, s, |s|);
    assert s[..|s|] == s;
    AllAccepted(answers, Entries(s));
  }

  lemma SavedOne(c: Column, target: int)
    ensures Save([], c, target) == [(c.db, [(c.table, [(c.name, target)])])]
    ensures Entries(Save([], c, target)) == [Entry(c, target)]
  {
    PutFirst<int>(c.name, target);
    PutFirst<Dict<int>>(c.table, [(c.name, target)]);
    PutFirst<Dict<Dict<int>>>(c.db, [(c.table, [(c.name, target)])]);
    assert OfTable(c.db, c.table, [(c.name, target)]) == [Entry(c, target)];
    assert OfDatabase(c.db, [(c.table, [(c.name, target)])]) == [Entry(c, target)];
  }

  lemma PutFirst<V>(key: string, v: V)
    ensures Put([], key, v) == [(key, v)]
  {
    var d: Dict<V> := [];
    assert d + [(key, v)] == [(key, v)];
  }

  /** At an input: a partition with a target of its own loses it when it is saved before
      its table. */
  lemma PartitionLosesTarget(answers: Answers)
    requires answers.vacuums && answers.connects("db", true)
    requires forall c, target :: answers.alters(c, target)
    ensures
      var original, s := map[OF_TABLE := 100, OF_PARTITION := 50], Save(Save([], OF_PARTITION, 50), OF_TABLE, 100);
      && Consistent(PARTITIONED, original, map[OF_TABLE := -1, OF_PARTITION := -1], s)
      && Analyzed(answers, PARTITIONED, original, s) == map[OF_TABLE := 100, OF_PARTITION := 100]
  {
    hide Save, Entries, Restored, Consistent, Analyzed, Covers, PARTITIONED, OF_TABLE, OF_PARTITION;
    var s := Save(Save([], OF_PARTITION, 50), OF_TABLE, 100);
    PartitionIsBelow();
    SavedTwo(OF_TABLE, OF_PARTITION);
    LostWhenBoth(answers, PARTITIONED, s, OF_TABLE, OF_PARTITION);
  }

  lemma LostWhenBoth(answers: Answers, below: Below, s: Saved, c: Column, o: Column)
    requires c != o && Covers(below, c, o) && answers.vacuums && answers.connects(c.db, true)
    requires forall x, target :: answers.alters(x, target)
    requires s == [(c.db, [(o.table, [(o.name, 50)]), (c.table, [(c.name, 100)])])]
    requires Entries(s) == [Entry(o, 50), Entry(c, 100)]
    ensures Consistent(below, map[c := 100, o := 50], map[c := -1, o := -1], s)
    ensures Analyzed(answers, below, map[c := 100, o := 50], s) == map[c := 100, o := 100]
  {
    AllBack(answers, s);
    assert NoneEmpty(s);
    hide NoneEmpty, Entries, Restored;
    LostBelow(answers, below, s, c, o);
  }

  lemma LostBelow(answers: Answers, below: Below, s: Saved, c: Column, o: Column)
    requires c != o && Covers(below, c, o) && NoneEmpty(s) && answers.vacuums
    requires Entries(s) == [Entry(o, 50), Entry(c, 100)] == Restored(answers, s)
    ensures Consistent(below, map[c := 100, o := 50], map[c := -1, o := -1], s)
    ensures Analyzed(answers, below, map[c := 100, o := 50], s) == map[c := 100, o := 100]
  {
    hide Entries, Restored, Applied, Covers, NoneEmpty;
    var original, reset := map[c := 100, o := 50], map[c := -1, o := -1];
    assert Entry(o, 50) in Entries(s) && Entry(c, 100) in Entries(s);
    CoversItself(below, c);
    CoversItself(below, o);
    assert AfterReset(below, original, Entries(s)) == reset;
    TwoApplied(below, reset, Entries(s));
    hide AfterReset, CoveredBy;
    assert Altered(below, Altered(below, reset, Entry(o, 50)), Entry(c, 100)) == map[c := 100, o := 100];
  }

  lemma TwoApplied(below: Below, t: Targets, es: seq<Entry>)
    requires |es| == 2
    ensures Applied(below, t, es) == Altered(below, Altered(below, t, es[0]), es[1])
  {
    assert es[..1] == [es[0]];
    assert Applied(below, t, []) == t;
    assert Applied(below, t, [es[0]]) == Altered(below, t, es[0]);
  }

  /** Two tables of a database, saved one after the other. */
  lemma SavedTwo(c: Column, o: Column)
    requires c.db == o.db && c.table != o.table
    ensures
      var s := Save(Save([], o, 50), c, 100);
      && s == [(c.db, [(o.table, [(o.name, 50)]), (c.table, [(c.name, 100)])])]
      && Entries(s) == [Entry(o, 50), Entry(c, 100)]
  {
    var one: Dict<Dict<int>> := [(o.table, [(o.name, 50)])];
    var two: Dict<Dict<int>> := [(o.table, [(o.name, 50)]), (c.table, [(c.name, 100)])];
    SavedOne(o, 50);
    PutSecond(one, c.table, [(c.name, 100)]);
    PutOver(c.db, one, two);
    PutFirst<int>(c.name, 100);
    EntriesOfTwo(c, o);
    hide OfTable, OfDatabase, Entries, Put;
    assert Find([(c.db, one)], c.db, []) == one && Find(one, c.table, []) == [];
  }

  lemma PutSecond<V>(d: Dict<V>, key: string, v: V)
    requires |d| == 1 && d[0].0 != key
    ensures Put(d, key, v) == [d[0], (key, v)]
  {
    assert Position(d[1..], key) == 0;
    assert d + [(key, v)] == [d[0], (key, v)];
  }

  lemma PutOver<V>(key: string, v: V, w: V)
    ensures Put([(key, v)], key, w) == [(key, w)]
  {
  }

  lemma EntriesOfTwo(c: Column, o: Column)
    requires c.db == o.db
    ensures Entries([(c.db, [(o.table, [(o.name, 50)]), (c.table, [(c.name, 100)])])]) == [Entry(o, 50), Entry(c, 100)]
  {
    var two: Dict<Dict<int>> := [(o.table, [(o.name, 50)]), (c.table, [(c.name, 100)])];
    var s: Saved := [(c.db, two)];
    assert OfTable(o.db, o.table, [(o.name, 50)]) == [Entry(o, 50)];
    assert OfTable(c.db, c.table, [(c.name, 100)]) == [Entry(c, 100)];
    hide OfTable;
    assert two[..1] == [two[0]] && two[..1][..0] == [];
    assert OfDatabase(c.db, [two[0]]) == [Entry(o, 50)];
    assert OfDatabase(c.db, two) == [Entry(o, 50), Entry(c, 100)];
    hide OfDatabase;
    assert s[..0] == [];
  }

  /** When vacuumdb cannot be started no target that was reset returns: the exception passes
      the restore by. */
  lemma VacuumLosesTargets(answers: Answers, below: Below, original: Targets, now: Targets, s: Saved, c: Column)
    requires Consistent(below, original, now, s) && c in original && CoveredBy(below, Entries(s), c) && !answers.vacuums
    ensures Analyzed(answers, below, original, s)[c] == -1
  {
  }

  /** At an input: one column with a target of its own. */
  lemma VacuumLosesATarget(answers: Answers, below: Below, c: Column, target: int)
    requires !answers.vacuums && target > 0
    ensures
      && Consistent(below, map[c := target], map[c := -1], Save([], c, target))
      && Analyzed(answers, below, map[c := target], Save([], c, target)) == map[c := -1]
  {
    var s := Save([], c, target);
    SavedOne(c, target);
    assert NoneEmpty(s);
    CoversItself(below, c);
    hide Save, Entries, Covers, Restored, NoneEmpty;
    assert Entry(c, target) in Entries(s);
    assert AfterReset(below, map[c := target], Entries(s)) == map[c := -1];
  }

  // ---- The script ------------------------------------------------------------------------------------

  /** The databases of the cluster. */
  class Catalog {
    const answers: Answers
    const below: Below
    var targets: Targets

    method Connect(db: string, restoring: bool) returns (r: Call<()>)
      ensures r.Returned? <==> answers.connects(db, restoring)
    {
      r := if answers.connects(db, restoring) then Returned(()) else Raised;
    }

    /** The columns of db with a target above 0, in some order, each once. */
    method Select(db: string) returns (r: Call<seq<Row>>)
      ensures r.Returned? <==> answers.selects(db)
      ensures r.Returned? ==> Listed(r.value, db, targets)
    {
      var rows: seq<Row> := [];
      var left := set c | c in targets && c.db == db && targets[c] > 0;
      ghost var all := left;
      while left != {}
        invariant left <= all
        invariant forall w :: w in rows ==>
                    ColumnOf(db, w) in all - left && targets[ColumnOf(db, w)] == w.target
        invariant forall c :: c in all - left ==> Row(c.table, c.name, targets[c]) in rows
        invariant forall i, j :: 0 <= i < j < |rows| ==> rows[i] != rows[j]
      {
        var c :| c in left;
        assert forall v :: v in rows ==> ColumnOf(db, v) != c;
        left := left - {c};
        var w := Row(c.table, c.name, targets[c]);
        rows := rows + [w];
      }
      forall c | IsCustom(targets, c) && c.db == db
        ensures exists j :: 0 <= j < |rows| && ColumnOf(db, rows[j]) == c
      {
        var j :| 0 <= j < |rows| && rows[j] == Row(c.table, c.name, targets[c]);
        assert ColumnOf(db, rows[j]) == c;
      }
      r := if answers.selects(db) then Returned(rows) else Raised;
    }

    /** ALTER TABLE ... SET STATISTICS; one that raises changes nothing. */
    method Alter(c: Column, target: int) returns (r: Call<()>)
      modifies `targets
      ensures r.Returned? <==> answers.alters(c, target)
      ensures targets == if r.Returned? then Altered(below, old(targets), Entry(c, target)) else old(targets)
    {
      if answers.alters(c, target) {
        targets := Altered(below, targets, Entry(c, target));
        return Returned(());
      }
      return Raised;
    }
  }

  class CustomStatistics {
    const catalog: Catalog
    var statistics: Saved

    constructor (catalog: Catalog)
      ensures this.catalog == catalog && statistics == []
    {
      this.catalog, statistics := catalog, [];
    }

    /** What is saved is what was changed since `original`. */
    ghost predicate Saves(original: Targets)
      reads this, catalog
    {
      Consistent(catalog.below, original, catalog.targets, statistics)
    }

    /** One row of the loop: the column is saved only once its ALTER succeeded. */
    method ResetColumn(c: Column, target: int, ghost original: Targets) returns (r: Call<()>)
      requires Saves(original) && Unsaved(statistics, c)
      requires c in original && original[c] == target > 0
      modifies `statistics, catalog`targets
      ensures Saves(original)
      ensures r.Returned? <==> catalog.answers.alters(c, -1)
      ensures r.Returned? ==>
                && statistics == Save(old(statistics), c, target)
                && catalog.targets == Altered(catalog.below, old(catalog.targets), Entry(c, -1))
      ensures r.Raised? ==> statistics == old(statistics) && catalog.targets == old(catalog.targets)
    {
      hide Consistent, Save, Unsaved, Altered;
      var _ :- catalog.Alter(c, -1);
      SaveConsistent(catalog.below, original, old(catalog.targets), statistics, c, target);
      statistics := Save(statistics, c, target);
      r := Returned(());
    }

    /** The loop over the rows of one database: an ALTER that raises ends it. */
    method ResetDatabase(db: string, ghost original: Targets) returns (r: Call<()>)
      requires Saves(original)
      modifies `statistics, catalog`targets
      ensures Saves(original)
      ensures r.Returned? <==> DatabaseWorks(catalog.answers, old(catalog.targets), db)
      ensures r.Returned? ==> forall c: Column :: c.db == db ==> !IsCustom(catalog.targets, c)
      ensures r.Returned? ==> SavedOf(db, old(catalog.targets), statistics)
      ensures OnlyReset(old(catalog.targets), catalog.targets)
      ensures SameElsewhere(db, old(catalog.targets), catalog.targets) && SavesGrow(old(statistics), statistics)
    {
      hide Consistent, Save, Unsaved, Pending, Altered, Entries, SavesGrow, SameElsewhere;
      SavesStay(statistics);
      NothingElsewhere(db, catalog.targets);
      var _ :- catalog.Connect(db, false);
      var rows :- catalog.Select(db);
      AllPending(catalog.below, rows, db, original, catalog.targets, statistics);
      assert Distinct(rows) by {
        RowsDistinct(rows, db, catalog.targets);
      }
      for i := 0 to |rows|
        invariant Saves(original)
        invariant OnlyReset(old(catalog.targets), catalog.targets)
        invariant Pending(rows, i, db, original, catalog.targets, statistics)
        invariant forall j :: 0 <= j < i ==>
                    && catalog.answers.alters(ColumnOf(db, rows[j]), -1)
                    && Entry(ColumnOf(db, rows[j]), rows[j].target) in Entries(statistics)
        invariant SameElsewhere(db, old(catalog.targets), catalog.targets) && SavesGrow(old(statistics), statistics)
      {
        assert rows[i] in rows;
        SaveAddsAll(statistics, ColumnOf(db, rows[i]), rows[i].target);
        AlteredElsewhere(catalog.below, db, old(catalog.targets), catalog.targets, ColumnOf(db, rows[i]));
        FirstPending(rows, i, db, original, catalog.targets, statistics);
        PendingStep(catalog.below, rows, i, db, original, catalog.targets, statistics);
        ResetsOnly(catalog.below, catalog.targets, ColumnOf(db, rows[i]));
        SavesGrowOn(old(statistics), statistics, Save(statistics, ColumnOf(db, rows[i]), rows[i].target));
        var _ :- ResetColumn(ColumnOf(db, rows[i]), rows[i].target, original);
      }
      NothingPending(rows, db, original, catalog.targets, statistics);
      r := Returned(());
    }

    /** reset_custom_statistics_target: wherever it stops, what is saved is what was
        changed; when it returns, no column of the databases listed is custom. */
    method Reset() returns (r: Call<()>)
      modifies `statistics, catalog`targets
      ensures Saves(old(catalog.targets))
      ensures r.Returned? <==>
                && catalog.answers.databases.Returned?
                && ResetWorks(catalog.answers, old(catalog.targets), catalog.answers.databases.value)
      ensures r.Returned? ==>
                AllReset(old(catalog.targets), catalog.targets, statistics, catalog.answers.databases.value)
    {
      hide Consistent, Entries, SavesGrow;
      statistics := [];
      NothingSaved(catalog.below, catalog.targets);
      var names :- catalog.answers.databases;
      for i := 0 to |names|
        invariant Saves(old(catalog.targets))
        invariant ResetWorks(catalog.answers, old(catalog.targets), names[..i])
        invariant AllReset(old(catalog.targets), catalog.targets, statistics, names[..i])
        invariant forall c: Column :: c.db !in names[..i] ==>
                    && (c in catalog.targets <==> c in old(catalog.targets))
                    && (c in catalog.targets ==> catalog.targets[c] == old(catalog.targets)[c])
      {
        ghost var before, saved := catalog.targets, statistics;
        assert names[..i + 1] == names[..i] + [names[i]];
        WorksAgain(catalog.answers, old(catalog.targets), before, names[..i], names[i]);
        var _ :- ResetDatabase(names[i], old(catalog.targets));
        ResetMore(old(catalog.targets), before, catalog.targets, saved, statistics, names[..i], names[i]);
      }
      assert names[..|names|] == names;
      r := Returned(());
    }

    /** The columns of one table go back; an ALTER that raises is only logged. */
    method RestoreTable(db: string, table: string, columns: Dict<int>)
      modifies catalog`targets
      ensures catalog.targets
              == Applied(catalog.below, old(catalog.targets), Accepted(catalog.answers, OfTable(db, table, columns)))
    {
      for i := 0 to |columns|
        invariant catalog.targets
                  == Applied(catalog.below, old(catalog.targets), Accepted(catalog.answers, OfTable(db, table, columns[..i])))
      {
        var _ := catalog.Alter(Column(db, table, columns[i].0), columns[i].1);
        assert columns[..i + 1][..i] == columns[..i];
      }
      assert columns[..|columns|] == columns;
    }

    method RestoreDatabase(db: string, tables: Dict<Dict<int>>) returns (r: Call<()>)
      modifies catalog`targets
      ensures r.Returned? <==> catalog.answers.connects(db, true)
      ensures catalog.targets
              == if r.Returned? then
                   Applied(catalog.below, old(catalog.targets), Accepted(catalog.answers, OfDatabase(db, tables)))
                 else old(catalog.targets)
    {
      hide Accepted, OfTable, Applied;
      var _ :- catalog.Connect(db, true);
      NothingApplied(catalog.answers, catalog.below, catalog.targets);
      for i := 0 to |tables|
        invariant catalog.targets
                  == Applied(catalog.below, old(catalog.targets), Accepted(catalog.answers, OfDatabase(db, tables[..i])))
      {
        RestoreTable(db, tables[i].0, tables[i].1);
        RestoredMore(catalog.answers, catalog.below, old(catalog.targets),
                     OfDatabase(db, tables[..i]), OfTable(db, tables[i].0, tables[i].1));
        assert tables[..i + 1][..i] == tables[..i];
      }
      assert tables[..|tables|] == tables;
      r := Returned(());
    }

    /** restore_custom_statistics_target: the ALTERs for the databases before the first that
        cannot be reached, in order, but for those refused. */
    method Restore() returns (r: Call<()>)
      modifies catalog`targets
      ensures r.Returned? <==> forall i :: 0 <= i < |statistics| ==> catalog.answers.connects(statistics[i].0, true)
      ensures catalog.targets == Applied(catalog.below, old(catalog.targets), Restored(catalog.answers, statistics))
    {
      hide Accepted, OfDatabase, Applied;
      NothingApplied(catalog.answers, catalog.below, catalog.targets);
      for i := 0 to |statistics|
        invariant catalog.targets
                  == Applied(catalog.below, old(catalog.targets), Accepted(catalog.answers, Entries(statistics[..i])))
        invariant forall j :: 0 <= j < i ==> catalog.answers.connects(statistics[j].0, true)
      {
        var done := RestoreDatabase(statistics[i].0, statistics[i].1);
        if done.Raised? {
          ReachedIs(catalog.answers, statistics, i);
          return Raised;
        }
        RestoredMore(catalog.answers, catalog.below, old(catalog.targets),
                     Entries(statistics[..i]), OfDatabase(statistics[i].0, statistics[i].1));
        assert statistics[..i + 1][..i] == statistics[..i];
      }
      ReachedIs(catalog.answers, statistics, |statistics|);
      r := Returned(());
    }

    /** analyze: reset, vacuumdb, restore. Exceptions of the first and the last are caught,
        but not one of vacuumdb in between. */
    method Analyze() returns (r: Call<()>, ghost during: Targets)
      modifies `statistics, catalog`targets
      ensures r.Returned? <==> catalog.answers.vacuums
      // the targets while vacuumdb runs
      ensures Consistent(catalog.below, old(catalog.targets), during, statistics)
      ensures
        catalog.answers.databases.Returned?
        && ResetWorks(catalog.answers, old(catalog.targets), catalog.answers.databases.value) ==>
          AllReset(old(catalog.targets), during, statistics, catalog.answers.databases.value)
      // and after it
      ensures catalog.targets == Analyzed(catalog.answers, catalog.below, old(catalog.targets), statistics)
    {
      hide NoneEmpty, Restored, Entries, AfterReset, ResetWorks, AllReset;
      var _ := Reset();
      during := catalog.targets;
      if !catalog.answers.vacuums {
        r := Raised;
        return;
      }
      var _ := Restore();
      r := Returned(());
    }
  }

  // ---- What a reset leaves alone -----------------------------------------------------------------

  /** The custom columns of the database are saved. */
  ghost predicate SavedOf(db: string, t: Targets, s: Saved) {
    forall c: Column :: c in t && c.db == db && t[c] > 0 ==> Entry(c, t[c]) in Entries(s)
  }

  ghost predicate SameElsewhere(db: string, t: Targets, u: Targets) {
    u.Keys == t.Keys && forall c :: c in t && c.db != db ==> u[c] == t[c]
  }

  ghost predicate SavesGrow(s: Saved, t: Saved) {
    forall e :: e in Entries(s) ==> e in Entries(t)
  }

  lemma SavesStay(s: Saved)
    ensures SavesGrow(s, s)
  {
  }

  lemma NothingElsewhere(db: string, t: Targets)
    ensures SameElsewhere(db, t, t)
  {
  }

  lemma SavesGrowOn(s: Saved, t: Saved, u: Saved)
    requires SavesGrow(s, t) && SavesGrow(t, u)
    ensures SavesGrow(s, u)
  {
  }

  lemma SaveAddsAll(s: Saved, c: Column, target: int)
    ensures Unsaved(s, c) ==> SavesGrow(s, Save(s, c, target)) && Entry(c, target) in Entries(Save(s, c, target))
    ensures Unsaved(s, c) ==> forall e :: e in Entries(s) ==> e in Entries(Save(s, c, target))
  {
    hide Entries, Save, Unsaved;
    if Unsaved(s, c) {
      forall e | e in Entries(s)
        ensures e in Entries(Save(s, c, target))
      {
        SaveAdds(s, c, target, e);
      }
      SaveAdds(s, c, target, Entry(c, target));
    }
  }

  lemma AlteredElsewhere(below: Below, db: string, t: Targets, u: Targets, c: Column)
    requires SameElsewhere(db, t, u) && c.db == db
    ensures SameElsewhere(db, t, Altered(below, u, Entry(c, -1)))
  {
  }

  /** A database has its custom columns until it is reset, and none afterwards. */
  lemma WorksAgain(answers: Answers, original: Targets, now: Targets, names: seq<string>, db: string)
    requires ResetWorks(answers, original, names)
    requires forall c: Column :: c.db in names ==> !IsCustom(now, c)
    requires forall c: Column :: c.db !in names ==> (c in now <==> c in original) && (c in now ==> now[c] == original[c])
    ensures ResetWorks(answers, original, names + [db]) <==> DatabaseWorks(answers, now, db)
  {
    if db in names {
      assert DatabaseWorks(answers, original, db);
    } else {
      assert DatabaseWorks(answers, now, db) <==> DatabaseWorks(answers, original, db);
      if ResetWorks(answers, original, names + [db]) {
        assert db in names + [db];
      }
    }
  }

  lemma ResetMore(original: Targets, before: Targets, now: Targets, s: Saved, t: Saved, names: seq<string>, db: string)
    requires AllReset(original, before, s, names) && SavesGrow(s, t) && OnlyReset(before, now)
    requires forall c: Column :: c.db !in names ==> (c in before <==> c in original) && (c in before ==> before[c] == original[c])
    requires SavedOf(db, before, t) && forall c: Column :: c.db == db ==> !IsCustom(now, c)
    ensures AllReset(original, now, t, names + [db])
  {
    hide Entries;
  }

  lemma NothingApplied(answers: Answers, below: Below, t: Targets)
    ensures Applied(below, t, Accepted(answers, [])) == t
  {
  }

  lemma RestoredMore(answers: Answers, below: Below, t: Targets, es: seq<Entry>, fs: seq<Entry>)
    ensures Applied(below, t, Accepted(answers, es + fs))
            == Applied(below, Applied(below, t, Accepted(answers, es)), Accepted(answers, fs))
  {
    AcceptedConcat(answers, es, fs);
    AppliedConcat(below, t, Accepted(answers, es), Accepted(answers, fs));
  }

  lemma RowsDistinct(rows: seq<Row>, db: string, t: Targets)
    requires Listed(rows, db, t)
    ensures Distinct(rows)
  {
  }

  lemma FirstPending(rows: seq<Row>, i: nat, db: string, original: Targets, now: Targets, s: Saved)
    requires i < |rows| && Pending(rows, i, db, original, now, s)
    ensures
      var c := ColumnOf(db, rows[i]);
      c in original && original[c] == rows[i].target > 0 && Unsaved(s, c)
  {
  }

  lemma NothingPending(rows: seq<Row>, db: string, original: Targets, now: Targets, s: Saved)
    requires Pending(rows, |rows|, db, original, now, s)
    ensures forall c: Column :: c.db == db ==> !IsCustom(now, c)
  {
  }

  lemma ResetsOnly(below: Below, t: Targets, c: Column)
    ensures OnlyReset(t, Altered(below, t, Entry(c, -1)))
  {
  }
}
