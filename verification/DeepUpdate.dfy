/** deep_update of scripts/configure_spilo.py: the user's configuration over the defaults. */
module DeepUpdates {
  import opened Wrappers

  // ---- Configurations as values ---------------------------------------------------------

  datatype Json =
    | Null
    | Scalar(text: string)
    | List(items: seq<Json>)
    | Object(fields: map<string, Json>)

  /** The merge that deep_update computes. */
  function Merge(a: Json, b: Json): Json {
    if a.Object? && b.Object? then
      Object(map k | k in a.fields.Keys + b.fields.Keys ::
        if k !in a.fields then b.fields[k]
        else if k in b.fields then Merge(a.fields[k], b.fields[k])
        else a.fields[k])
    else if a.List? && b.List? then a
    else if a != Null then a
    else b
  }

  // ---- Configurations in memory ------------------------------------------------------------

  /** A value of Python; dicts are shared by reference. */
  datatype Value =
    | NoneValue
    | ScalarValue(text: string)
    | ListValue(items: seq<Json>)
    | DictValue(dict: Dict)

  class Dict {
    var entries: map<string, Value>
    ghost var repr: set<Dict>

    constructor ()
      ensures Valid() && entries == map[] && repr == {this}
    {
      entries := map[];
      repr := {this};
    }

    /** The dicts reachable from this one form a tree inside repr. */
    ghost predicate Valid()
      reads this, repr
      decreases repr
    {
      && this in repr
      && (forall k :: k in entries && entries[k].DictValue? ==>
            && entries[k].dict in repr && entries[k].dict.repr < repr && this !in entries[k].dict.repr
            && entries[k].dict.Valid())
      && (forall j, k :: j in entries && k in entries && j != k && entries[j].DictValue? && entries[k].DictValue? ==>
            entries[j].dict.repr !! entries[k].dict.repr)
    }

    ghost function Fields(): map<string, Json>
      requires Valid()
      reads this, repr
      decreases repr
    {
      map k | k in entries ::
        match entries[k]
        case NoneValue => Null
        case ScalarValue(text) => Scalar(text)
        case ListValue(items) => List(items)
        case DictValue(dict) => Object(dict.Fields())
    }
  }

  ghost function Below(v: Value): set<Dict>
    reads if v.DictValue? then {v.dict} else {}
  {
    if v.DictValue? then v.dict.repr else {}
  }

  ghost predicate Sound(v: Value)
    reads if v.DictValue? then {v.dict} else {}, Below(v)
  {
    v.DictValue? ==> v.dict.Valid()
  }

  ghost function Meaning(v: Value): Json
    requires Sound(v)
    reads if v.DictValue? then {v.dict} else {}, Below(v)
  {
    match v
    case NoneValue => Null
    case ScalarValue(text) => Scalar(text)
    case ListValue(items) => List(items)
    case DictValue(dict) => Object(dict.Fields())
  }

  /** deep_update(a, b): the dicts of a are updated in place, those of b are not touched
      but may become part of the result. */
  method DeepUpdate(a: Value, b: Value) returns (r: Value)
    requires Sound(a) && Sound(b) && Below(a) !! Below(b)
    modifies Below(a)
    ensures Sound(r) && Meaning(r) == Merge(old(Meaning(a)), old(Meaning(b)))
    ensures Below(r) <= old(Below(a)) + old(Below(b))
    ensures a.DictValue? && b.DictValue? ==> r == a
    decreases Meaning(b), 3
  {
    if a.DictValue? && b.DictValue? {
      UpdateDict(a.dict, b.dict);
      return a;
    }
    if a.ListValue? && b.ListValue? {
      return a;
    }
    return if a.NoneValue? then b else a;
  }

  /** Every entry but one is a tree of its own, apart from the others. */
  ghost predicate OthersSound(a: Dict, key: string)
    reads a, a.repr, set k | k in a.entries && a.entries[k].DictValue? :: a.entries[k].dict,
      set k, o | k in a.entries && a.entries[k].DictValue? && o in a.entries[k].dict.repr :: o
  {
    && (forall k :: k in a.entries && k != key && a.entries[k].DictValue? ==>
          && a.entries[k].dict in a.repr && a.entries[k].dict.repr < a.repr && a !in a.entries[k].dict.repr
          && a.entries[k].dict.Valid())
    && (forall j, k ::
          j in a.entries && k in a.entries && j != k && j != key && k != key
          && a.entries[j].DictValue? && a.entries[k].DictValue? ==>
            a.entries[j].dict.repr !! a.entries[k].dict.repr)
  }

  /** a[key] = v, for a value apart from the other entries; `more` joins the footprint. */
  method Put(a: Dict, key: string, v: Value, ghost more: set<Dict>)
    requires a in a.repr && OthersSound(a, key)
    requires Sound(v) && a !in Below(v) && Below(v) <= a.repr + more
    requires forall k :: k in a.entries && k != key ==> Below(a.entries[k]) !! Below(v)
    modifies a
    ensures a.Valid() && a.repr == old(a.repr) + more && a.entries == old(a.entries)[key := v]
    ensures Sound(v) && Meaning(v) == old(Meaning(v))
    ensures forall k :: k in old(a.entries) && k != key ==>
              && Below(a.entries[k]) == old(Below(a.entries[k]))
              && Sound(a.entries[k]) && Meaning(a.entries[k]) == old(Meaning(a.entries[k]))
  {
    a.entries := a.entries[key := v];
    a.repr := a.repr + more;
    assert v.DictValue? ==> a !in v.dict.repr && v.dict.repr < a.repr;
  }

  lemma EntriesSound(d: Dict)
    requires d.Valid()
    ensures forall k :: k in d.entries ==> Sound(d.entries[k]) && d.Fields()[k] == Meaning(d.entries[k])
    ensures forall k :: k in d.entries ==> Below(d.entries[k]) < d.repr && d !in Below(d.entries[k])
    ensures forall j, k :: j in d.entries && k in d.entries && j != k ==> Below(d.entries[j]) !! Below(d.entries[k])
    ensures forall k :: k in d.entries && d.entries[k].DictValue? ==> d.entries[k].dict in Below(d.entries[k])
    ensures forall key :: OthersSound(d, key)
    ensures d.Fields().Keys == d.entries.Keys && d in d.repr
  {
  }

  lemma FieldKeys(d: Dict)
    requires d.Valid()
    ensures d.Fields().Keys == d.entries.Keys
  {
  }

  /** What an entry and the others have to do with each other. */
  lemma EntryApart(d: Dict, key: string)
    requires d.Valid()
    ensures OthersSound(d, key) && d in d.repr
    ensures key in d.entries ==> d !in Below(d.entries[key]) && Below(d.entries[key]) < d.repr
    ensures forall k :: k in d.entries && k != key ==> Below(d.entries[k]) < d.repr && d !in Below(d.entries[k])
    ensures key in d.entries ==> forall k :: k in d.entries && k != key ==> Below(d.entries[k]) !! Below(d.entries[key])
    ensures forall k :: k in d.entries ==> Sound(d.entries[k]) && k in d.Fields() && d.Fields()[k] == Meaning(d.entries[k])
    ensures d.Fields().Keys == d.entries.Keys
  {
  }

  lemma EntrySound(d: Dict, key: string)
    requires d.Valid() && key in d.entries
    ensures Sound(d.entries[key]) && Below(d.entries[key]) < d.repr && d !in Below(d.entries[key])
    ensures key in d.Fields() && d.Fields()[key] == Meaning(d.entries[key])
  {
  }

  /** The same, told by what the dict means. */
  method PutField(a: Dict, key: string, v: Value, ghost more: set<Dict>)
    requires a in a.repr && OthersSound(a, key)
    requires Sound(v) && a !in Below(v) && Below(v) <= a.repr + more
    requires forall k :: k in a.entries && k != key ==> Below(a.entries[k]) !! Below(v)
    modifies a
    ensures a.Valid() && a.repr == old(a.repr) + more && a.entries == old(a.entries)[key := v]
    ensures a.Fields().Keys == old(a.entries).Keys + {key} && a.Fields()[key] == old(Meaning(v))
    ensures forall k :: k in old(a.entries) && k != key ==>
              Below(a.entries[k]) == old(Below(a.entries[k])) && a.Fields()[k] == old(Meaning(a.entries[k]))
  {
    hide Dict.Valid, Dict.Fields;
    Put(a, key, v, more);
    EntriesSound(a);
  }

  function Updated(fields: map<string, Json>, key: string, value: Json): Json {
    if key in fields then Merge(fields[key], value) else value
  }

  /** deep_update(a[key], v): the other entries of a stay as they were. */
  method UpdateChild(a: Dict, key: string, v: Value) returns (r: Value)
    requires a.Valid() && key in a.entries && Sound(v) && a.repr !! Below(v)
    modifies Below(a.entries[key])
    ensures a.entries == old(a.entries) && a.repr == old(a.repr) && OthersSound(a, key)
    ensures old(a.Fields()).Keys == a.entries.Keys
    ensures forall k :: k in a.entries && k != key ==>
              && Below(a.entries[k]) == old(Below(a.entries[k]))
              && Sound(a.entries[k]) && Meaning(a.entries[k]) == old(a.Fields())[k]
    ensures Sound(r) && Meaning(r) == Merge(old(a.Fields())[key], old(Meaning(v)))
    ensures a in a.repr && a !in Below(r) && Below(r) <= a.repr + old(Below(v))
    ensures forall k :: k in a.entries && k != key ==> Below(a.entries[k]) !! Below(r)
    decreases Meaning(v), 4
  {
    hide Merge;
    r := DeepUpdate(a.entries[key], v);
    forall k | k in a.entries && k != key && a.entries[k].DictValue?
      ensures a.entries[k].dict.Valid() && a.entries[k].dict.repr == old(a.entries[k].dict.repr)
      ensures a.entries[k].dict.Fields() == old(a.entries[k].dict.Fields())
    {
      var d := a.entries[k].dict;
      assert old(d.Valid()) && d in old(d.repr) && old(d.repr) <= old(a.repr);
      assert forall o :: o in old(d.repr) ==> o !in old(Below(a.entries[key]));
    }
  }

  /** a[key] = v for a key a does not have. */
  method AddField(a: Dict, key: string, v: Value)
    requires a.Valid() && key !in a.entries && Sound(v) && a.repr !! Below(v)
    modifies a
    ensures a.Valid() && a.repr == old(a.repr) + old(Below(v)) && a.entries.Keys == old(a.entries).Keys + {key}
    ensures forall k :: k in old(a.entries) ==>
              a.entries[k] == old(a.entries)[k] && Below(a.entries[k]) == old(Below(a.entries[k]))
    ensures a.Fields() == old(a.Fields())[key := old(Meaning(v))]
  {
    hide Dict.Valid, Dict.Fields, OthersSound, Meaning;
    EntryApart(a, key);
    PutField(a, key, v, Below(v));
  }

  lemma OneChanged(before: map<string, Json>, after: map<string, Json>, key: string)
    requires key in before && after.Keys == before.Keys
    requires forall k :: k in before && k != key ==> after[k] == before[k]
    ensures after == before[key := after[key]]
  {
  }

  /** a[key] = deep_update(a[key], v) */
  method UpdateField(a: Dict, key: string, v: Value)
    requires a.Valid() && key in a.entries && Sound(v) && a.repr !! Below(v)
    modifies a, Below(a.entries[key])
    ensures a.Valid() && a.repr == old(a.repr) + old(Below(v)) && a.entries.Keys == old(a.entries).Keys
    ensures forall k :: k in old(a.entries) && k != key ==>
              a.entries[k] == old(a.entries)[k] && Below(a.entries[k]) == old(Below(a.entries[k]))
    ensures key in old(a.Fields())
    ensures a.Fields() == old(a.Fields())[key := Merge(old(a.Fields())[key], old(Meaning(v)))]
    decreases Meaning(v), 5
  {
    hide Dict.Valid, Dict.Fields, OthersSound, Meaning, Merge, Sound, Below;
    ghost var more, fields := Below(v), a.Fields();
    var r := UpdateChild(a, key, v);
    PutField(a, key, r, more);
    OneChanged(fields, a.Fields(), key);
  }

  /** One key of b. */
  method UpdateKey(a: Dict, b: Dict, key: string)
    requires a.Valid() && b.Valid() && key in b.entries
    requires a.repr !! Below(b.entries[key]) && b !in a.repr
    modifies a, if key in a.entries then Below(a.entries[key]) else {}
    ensures a.Valid() && a.repr == old(a.repr) + old(Below(b.entries[key])) && a.entries.Keys == old(a.entries).Keys + {key}
    ensures forall k :: k in old(a.entries) && k != key ==>
              a.entries[k] == old(a.entries)[k] && Below(a.entries[k]) == old(Below(a.entries[k]))
    ensures a.Fields() == old(a.Fields())[key := Updated(old(a.Fields()), key, old(b.Fields())[key])]
    decreases Object(b.Fields()), 0
  {
    hide Merge, Dict.Valid, Dict.Fields, OthersSound;
    EntrySound(b, key);
    FieldKeys(a);
    if key in a.entries {
      UpdateField(a, key, b.entries[key]);
    } else {
      AddField(a, key, b.entries[key]);
    }
  }

  /** What a has become when the given keys of b are done. */
  function MergedOn(a: map<string, Json>, b: map<string, Json>, done: set<string>): map<string, Json>
    requires done <= b.Keys
  {
    map k | k in a.Keys + done :: if k in done then Updated(a, k, b[k]) else a[k]
  }

  lemma MergedOnAll(a: map<string, Json>, b: map<string, Json>)
    ensures Merge(Object(a), Object(b)) == Object(MergedOn(a, b, b.Keys))
  {
  }

  lemma MergedOnMore(a: map<string, Json>, b: map<string, Json>, done: set<string>, key: string)
    requires done <= b.Keys && key in b && key !in done
    ensures MergedOn(a, b, done + {key})
            == MergedOn(a, b, done)[key := Updated(MergedOn(a, b, done), key, b[key])]
  {
    hide Merge;
  }

  /** The state between two rounds of the loop: the keys in left are still to be done.
      footprint is what a consisted of at first. */
  ghost predicate Midway(a: Dict, b: Dict, left: set<string>, footprint: set<Dict>)
    reads a, b, a.repr, b.repr
  {
    && a.Valid() && b.Valid() && left <= b.entries.Keys
    && b !in a.repr && b.repr !! footprint && a in footprint && a.repr <= footprint + b.repr
    && (forall k :: k in left ==> Below(b.entries[k]) !! a.repr)
    && (forall k :: k in left && k in a.entries ==> Below(a.entries[k]) <= footprint)
  }

  lemma MidwayAtFirst(a: Dict, b: Dict)
    requires a.Valid() && b.Valid() && a.repr !! b.repr
    ensures Midway(a, b, b.entries.Keys, a.repr)
  {
    hide Dict.Valid;
    EntriesSound(a);
    EntriesSound(b);
  }

  lemma MidwayIsSound(a: Dict, b: Dict, left: set<string>, footprint: set<Dict>)
    requires Midway(a, b, left, footprint)
    ensures a.Valid() && b.Valid() && a.repr <= footprint + b.repr
  {
  }

  /** One round of the loop. */
  method Round(a: Dict, b: Dict, key: string, ghost left: set<string>, ghost footprint: set<Dict>)
    requires Midway(a, b, left, footprint) && key in left
    modifies footprint
    ensures Midway(a, b, left - {key}, footprint)
    ensures b.Fields() == old(b.Fields()) && b.entries == old(b.entries) && b.repr == old(b.repr)
    ensures key in b.Fields()
    ensures a.Fields() == old(a.Fields())[key := Updated(old(a.Fields()), key, b.Fields()[key])]
    decreases Object(b.Fields()), 1
  {
    hide Dict.Valid, Dict.Fields, Updated, Merge, Meaning, Sound, OthersSound;
    EntriesSound(b);
    UpdateKey(a, b, key);
    assert b.Valid();
    assert forall k :: k in left && k != key ==> Below(b.entries[k]) == old(Below(b.entries[k]));
    assert forall k :: k in left && k != key ==> old(Below(b.entries[k])) !! old(Below(b.entries[key]));
    assert forall k :: k in left && k != key ==> Below(b.entries[k]) !! a.repr;
    assert forall k :: k in left && k != key && k in a.entries ==> Below(a.entries[k]) <= footprint;
  }

  /** The loop over the keys of b. */
  method UpdateDict(a: Dict, b: Dict)
    requires a.Valid() && b.Valid() && a.repr !! b.repr
    modifies a.repr
    ensures a.Valid() && Object(a.Fields()) == Merge(Object(old(a.Fields())), Object(old(b.Fields())))
    ensures a.repr <= old(a.repr) + old(b.repr)
    decreases Object(b.Fields()), 2
  {
    hide Merge, Dict.Valid, Dict.Fields, MergedOn, Updated, Midway;
    ghost var footprint, fieldsA, fieldsB, all := a.repr, a.Fields(), b.Fields(), b.entries.Keys;
    var left := b.entries.Keys;
    FieldKeys(b);
    MergedOnNothing(fieldsA, fieldsB);
    MidwayAtFirst(a, b);
    assert all - left == {};
    while left != {}
      invariant Midway(a, b, left, footprint) && left <= all
      invariant a.Valid() && b.Valid()
      invariant b.Fields() == fieldsB && b.repr == old(b.repr)
      invariant all == fieldsB.Keys && a.Fields() == MergedOn(fieldsA, fieldsB, all - left)
      decreases |left|
    {
      var key := AnyOf(left);
      MergedOnMore(fieldsA, fieldsB, all - left, key);
      assert all - (left - {key}) == all - left + {key};
      MidwayIsSound(a, b, left, footprint);
      Round(a, b, key, left, footprint);
      MidwayIsSound(a, b, left - {key}, footprint);
      left := left - {key};
    }
    MidwayIsSound(a, b, left, footprint);
    MergedOnAll(fieldsA, fieldsB);
    assert all - left == fieldsB.Keys;
  }

  lemma MergedOnNothing(a: map<string, Json>, b: map<string, Json>)
    ensures MergedOn(a, b, {}) == a
  {
  }

  // ---- The deep copy ---------------------------------------------------------------------------

  /** deepcopy: new dicts all the way down. */
  method DeepCopy(d: Dict) returns (c: Dict)
    requires d.Valid()
    ensures c.Valid() && fresh(c.repr) && c.Fields() == d.Fields()
    decreases Object(d.Fields()), 1
  {
    hide Dict.Fields, Dict.Valid;
    c := new Dict();
    ghost var fields := d.Fields();
    FieldKeys(d);
    FieldKeys(c);
    assert c.Fields() == fields - fields.Keys;
    var left := d.entries.Keys;
    while left != {}
      invariant left <= fields.Keys && d.Valid() && d.Fields() == fields && fresh(c)
      invariant c.Valid() && fresh(c.repr) && c.Fields() == fields - left
      decreases |left|
    {
      var key := AnyOf(left);
      RestoreOne(fields, left, key);
      FieldKeys(d);
      FieldKeys(c);
      CopyField(d, c, key);
      left := left - {key};
    }
    assert fields - left == fields;
  }

  lemma RestoreOne(fields: map<string, Json>, left: set<string>, key: string)
    requires key in left && key in fields
    ensures fields - (left - {key}) == (fields - left)[key := fields[key]]
    ensures (fields - left).Keys == fields.Keys - left
  {
  }

  method CopyField(d: Dict, c: Dict, key: string)
    requires d.Valid() && c.Valid() && c !in d.repr && key in d.entries && key !in c.entries
    modifies c
    ensures d.Valid() && d.Fields() == old(d.Fields())
    ensures c.Valid() && fresh(c.repr - old(c.repr)) && c.entries.Keys == old(c.entries).Keys + {key}
    ensures key in d.Fields() && c.Fields() == old(c.Fields())[key := d.Fields()[key]]
    decreases Object(d.Fields()), 0
  {
    hide Dict.Fields, Dict.Valid, Meaning;
    EntrySound(d, key);
    var v := CopyValue(d.entries[key]);
    AddField(c, key, v);
  }

  method CopyValue(v: Value) returns (r: Value)
    requires Sound(v)
    ensures Sound(r) && fresh(Below(r)) && Meaning(r) == Meaning(v)
    decreases Meaning(v), 2
  {
    if v.DictValue? {
      var d := DeepCopy(v.dict);
      return DictValue(d);
    }
    return v;
  }

  /** The configuration of main: the defaults are merged into a copy, and the user's own
      configuration is left as it was for the questions asked of it later. */
  method Configure(user: Dict, defaults: Dict) returns (config: Dict)
    requires user.Valid() && defaults.Valid() && user.repr !! defaults.repr
    ensures user.Valid() && user.Fields() == old(user.Fields())
    ensures config.Valid() && config.repr !! user.repr
    ensures Object(config.Fields()) == Merge(Object(user.Fields()), Object(old(defaults.Fields())))
  {
    hide Dict.Fields, Dict.Valid, Merge;
    config := DeepCopy(user);
    var merged := DeepUpdate(DictValue(config), DictValue(defaults));
  }

  // ---- What a merge holds ------------------------------------------------------------------------

  /** What is found following keys from object to object. */
  function At(j: Json, path: seq<string>): Option<Json> {
    if path == [] then Some(j)
    else if j.Object? && path[0] in j.fields then At(j.fields[path[0]], path[1..])
    else None
  }

  /** A value other than None or a dict stands on the way. */
  predicate Blocked(j: Json, path: seq<string>) {
    && path != []
    && match j
       case Null => false
       case Object(fields) => path[0] in fields && Blocked(fields[path[0]], path[1..])
       case _ => true
  }

  /** Under every path: nothing below a value the user set, otherwise what the user and the
      defaults have there, merged, or what one of them has. */
  lemma {:induction false} MergeAt(a: Json, b: Json, path: seq<string>)
    ensures At(Merge(a, b), path)
            == if Blocked(a, path) then None
               else match (At(a, path), At(b, path))
                    case (None, w) => w
                    case (Some(v), None) => Some(v)
                    case (Some(v), Some(w)) => Some(Merge(v, w))
  {
    if path != [] && a.Object? && b.Object? && path[0] in a.fields && path[0] in b.fields {
      MergeAt(a.fields[path[0]], b.fields[path[0]], path[1..]);
    } else if Blocked(a, path) {
      BlockedIsAbsent(a, path);
    }
  }

  lemma {:induction false} BlockedIsAbsent(j: Json, path: seq<string>)
    requires Blocked(j, path)
    ensures At(j, path) == None
  {
    if j.Object? {
      BlockedIsAbsent(j.fields[path[0]], path[1..]);
    }
  }

  /** The user's values other than None always win; None and what the user does not have,
      with nothing but dicts above it, is the default's. */
  lemma UserWins(a: Json, b: Json, path: seq<string>)
    ensures forall v :: At(a, path) == Some(v) && !v.Null? && !v.Object? ==> At(Merge(a, b), path) == Some(v)
    ensures (At(a, path) == None && !Blocked(a, path)) || (At(a, path) == Some(Null) && At(b, path).Some?) ==>
              At(Merge(a, b), path) == At(b, path)
  {
    MergeAt(a, b, path);
    if Blocked(a, path) {
      BlockedIsAbsent(a, path);
    }
  }

  /** Where both have a dict, its keys are those of both together. */
  lemma KeysUnite(a: Json, b: Json, path: seq<string>)
    requires At(a, path).Some? && At(a, path).value.Object? && At(b, path).Some? && At(b, path).value.Object?
    ensures
      var merged := At(Merge(a, b), path);
      && merged.Some? && merged.value.Object?
      && merged.value.fields.Keys == At(a, path).value.fields.Keys + At(b, path).value.fields.Keys
  {
    MergeAt(a, b, path);
    if Blocked(a, path) {
      BlockedIsAbsent(a, path);
    }
  }

  lemma {:induction false} MergeSelf(j: Json)
    ensures Merge(j, j) == j
  {
    if j.Object? {
      forall k | k in j.fields
        ensures Merge(j.fields[k], j.fields[k]) == j.fields[k]
      {
        MergeSelf(j.fields[k]);
      }
      assert Merge(j, j).fields == j.fields;
    }
  }

  /** Merging the same defaults once more changes nothing. */
  lemma {:induction false} MergeTwice(a: Json, b: Json)
    ensures Merge(Merge(a, b), b) == Merge(a, b)
  {
    MergeSelf(b);
    if a.Object? && b.Object? {
      forall k | k in a.fields.Keys + b.fields.Keys
        ensures k in b.fields ==> Merge(Merge(a, b).fields[k], b.fields[k]) == Merge(a, b).fields[k]
      {
        if k in b.fields {
          MergeSelf(b.fields[k]);
          if k in a.fields {
            MergeTwice(a.fields[k], b.fields[k]);
          }
        }
      }
      assert Merge(Merge(a, b), b).fields == Merge(a, b).fields;
    }
  }
}
