/** deep_update of scripts/configure_spilo.py on dicts that may be shared, as YAML aliases share
    them: it computes the merge for all defaults exactly when no dict that it can reach has a
    second way to it. */
module SharedDicts {
  import opened Wrappers
  import opened DeepUpdates

  /** A value: a dict by its place in memory, a list, or anything else. Lists are never changed,
      but they may hold dicts that are. Sub-dicts of the defaults are adopted as they are, being
      referred to from nowhere else. */
  datatype Node = Plain(value: Json) | Items(nodes: seq<Node>) | Ref(id: nat)

  type Store = map<nat, map<string, Node>>

  /** The defaults, with the keys of a dict in its order. */
  datatype Defaults = Value(json: Json) | Fields(fields: seq<(string, Defaults)>)

  /** What the defaults mean; of a repeated key the first counts. */
  function Content(b: Defaults): Json {
    match b
    case Value(json) => json
    case Fields(fields) => Object(ContentFrom(b, 0))
  }

  function ContentFrom(b: Defaults, i: nat): map<string, Json>
    requires b.Fields? && i <= |b.fields|
    decreases b, |b.fields| - i
  {
    if i == |b.fields| then map[]
    else ContentFrom(b, i + 1)[b.fields[i].0 := Content(b.fields[i].1)]
  }

  /** The keys of each dict are distinct. */
  predicate Proper(b: Defaults) {
    match b
    case Value(json) => !json.Object?
    case Fields(fields) =>
      && (forall i, j :: 0 <= i < j < |fields| ==> fields[i].0 != fields[j].0)
      && (forall i :: 0 <= i < |fields| ==> Proper(fields[i].1))
  }

  // ---- deep_update on a store --------------------------------------------------------

  /** deep_update(n, b): the store after it and the value it returns. */
  function Update(store: Store, n: Node, b: Defaults): (r: (Store, Node))
    ensures r.0.Keys == store.Keys
    decreases b
  {
    match n
    case Plain(value) => (store, Plain(Merge(value, Content(b))))
    case Items(_) => (store, n)
    case Ref(id) => if b.Fields? && id in store then (UpdateFrom(store, id, b, 0), n) else (store, n)
  }

  /** The loop over the keys of b, from the i-th on. */
  function UpdateFrom(store: Store, id: nat, b: Defaults, i: nat): (r: Store)
    requires b.Fields? && i <= |b.fields| && id in store
    ensures r.Keys == store.Keys
    decreases b, |b.fields| - i
  {
    if i == |b.fields| then store else UpdateFrom(UpdateKey(store, id, b, i), id, b, i + 1)
  }

  function UpdateKey(store: Store, id: nat, b: Defaults, i: nat): (r: Store)
    requires b.Fields? && i < |b.fields| && id in store
    ensures r.Keys == store.Keys
    decreases b, 0
  {
    var (key, sub) := b.fields[i];
    if key in store[id] then
      var (after, node) := Update(store, store[id][key], sub);
      after[id := after[id][key := node]]
    else store[id := store[id][key := Plain(Content(sub))]]
  }

  /** The dicts in memory, which deep_update changes in place. */
  class Memory {
    var store: Store
    var next: nat

    predicate Valid()
      reads this
    {
      Free(store, next)
    }

    /** The recursion on dicts that may be shared: a loop over the keys of b. What is no dict of
        the user is a value, also one adopted from the defaults. */
    method DeepUpdate(n: Node, b: Defaults) returns (r: Node)
      modifies `store
      ensures (store, r) == Update(old(store), n, b)
      decreases b
    {
      if n.Plain? {
        return Plain(Merge(n.value, Content(b)));
      }
      if n.Ref? && n.id in store && b.Fields? {
        for i := 0 to |b.fields|
          invariant n.id in store && UpdateFrom(store, n.id, b, i) == UpdateFrom(old(store), n.id, b, 0)
        {
          var (key, sub) := b.fields[i];
          if key in store[n.id] {
            var node := DeepUpdate(store[n.id][key], sub);
            store := store[n.id := store[n.id][key := node]];
          } else {
            store := store[n.id := store[n.id][key := Plain(Content(sub))]];
          }
        }
      }
      r := n;
    }

    /** The configuration of main: the defaults are merged into a deep copy of the user's. */
    method Configure(user: Node, b: Defaults) returns (r: Node)
      requires Valid()
      modifies this
      ensures Valid()
      ensures (store, r) == Update(Copied(old(store), old(next)), Shifted(user, old(next)), b)
    {
      store := Copied(store, next);
      r := DeepUpdate(Shifted(user, next), b);
      next := next + next;
    }
  }

  // ---- What a store means ----------------------------------------------------------------

  /** A configuration followed from its root, with the places of its dicts; a shared dict
      occurs more than once. */
  datatype Tree = Leaf(value: Json) | Bundle(items: seq<Tree>) | Branch(id: nat, kids: map<string, Tree>)

  predicate Fits(store: Store, n: Node, t: Tree)
    decreases t
  {
    match t
    case Leaf(value) => n == Plain(value)
    case Bundle(items) => n.Items? && |n.nodes| == |items| && forall i :: 0 <= i < |items| ==> Fits(store, n.nodes[i], items[i])
    case Branch(id, kids) =>
      && n == Ref(id) && id in store && store[id].Keys == kids.Keys
      && forall k :: k in kids ==> Fits(store, store[id][k], kids[k])
  }

  /** The dicts reached in any way. */
  function Ids(t: Tree): set<nat> {
    match t
    case Leaf(_) => {}
    case Bundle(items) => set i, x | 0 <= i < |items| && x in Ids(items[i]) :: x
    case Branch(id, kids) => {id} + set k, x | k in kids && x in Ids(kids[k]) :: x
  }

  /** The dicts reached by keys alone. */
  function KeyIds(t: Tree): set<nat> {
    match t
    case Branch(id, kids) => {id} + set k, x | k in kids && x in KeyIds(kids[k]) :: x
    case _ => {}
  }

  /** No dict reached by keys alone is reached in another way, through dicts or lists. */
  predicate Separate(t: Tree) {
    match t
    case Branch(id, kids) =>
      && (forall k :: k in kids ==> id !in Ids(kids[k]) && Separate(kids[k]))
      && (forall j, k :: j in kids && k in kids && j != k ==> KeyIds(kids[j]) !! Ids(kids[k]))
    case _ => true
  }

  function Erase(t: Tree): Json {
    match t
    case Leaf(value) => value
    case Bundle(items) => List(seq(|items|, i requires 0 <= i < |items| => Erase(items[i])))
    case Branch(_, kids) => Object(map k | k in kids :: Erase(kids[k]))
  }

  // ---- Without sharing ---------------------------------------------------------------------

  /** deep_update on the tree itself. */
  function TreeUpdate(t: Tree, b: Defaults): Tree
    decreases b
  {
    match t
    case Leaf(value) => Leaf(Merge(value, Content(b)))
    case Bundle(_) => t
    case Branch(id, kids) => if b.Fields? then Branch(id, KidsFrom(kids, b, 0)) else t
  }

  function KidsFrom(kids: map<string, Tree>, b: Defaults, i: nat): map<string, Tree>
    requires b.Fields? && i <= |b.fields|
    decreases b, |b.fields| - i
  {
    if i == |b.fields| then kids else KidsFrom(KidsKey(kids, b, i), b, i + 1)
  }

  function KidsKey(kids: map<string, Tree>, b: Defaults, i: nat): map<string, Tree>
    requires b.Fields? && i < |b.fields|
    decreases b, 0
  {
    var (key, sub) := b.fields[i];
    kids[key := if key in kids then TreeUpdate(kids[key], sub) else Leaf(Content(sub))]
  }

  /** What is not changed still fits. */
  lemma {:induction false} FitsElsewhere(store: Store, after: Store, n: Node, t: Tree)
    requires Fits(store, n, t)
    requires forall x :: x in Ids(t) ==> x in after && x in store && after[x] == store[x]
    ensures Fits(after, n, t)
    decreases t
  {
    if t.Branch? {
      forall k | k in t.kids
        ensures Fits(after, after[t.id][k], t.kids[k])
      {
        FitsElsewhere(store, after, store[t.id][k], t.kids[k]);
      }
    } else if t.Bundle? {
      forall i | 0 <= i < |t.items|
        ensures Fits(after, n.nodes[i], t.items[i])
      {
        FitsElsewhere(store, after, n.nodes[i], t.items[i]);
      }
    }
  }

  ghost predicate SameBut(store: Store, after: Store, ids: set<nat>) {
    after.Keys == store.Keys && forall x :: x in store && x !in ids ==> after[x] == store[x]
  }

  lemma {:induction false} KeepsIds(t: Tree, b: Defaults)
    ensures Ids(TreeUpdate(t, b)) == Ids(t) && KeyIds(TreeUpdate(t, b)) == KeyIds(t)
    ensures Separate(t) ==> Separate(TreeUpdate(t, b))
    decreases b
  {
    if t.Branch? && b.Fields? {
      KidsKeepIds(t.id, t.kids, b, 0);
    }
  }

  lemma {:induction false} KidsKeepIds(id: nat, kids: map<string, Tree>, b: Defaults, i: nat)
    requires b.Fields? && i <= |b.fields|
    ensures Ids(Branch(id, KidsFrom(kids, b, i))) == Ids(Branch(id, kids))
    ensures KeyIds(Branch(id, KidsFrom(kids, b, i))) == KeyIds(Branch(id, kids))
    ensures Separate(Branch(id, kids)) ==> Separate(Branch(id, KidsFrom(kids, b, i)))
    decreases b, |b.fields| - i
  {
    hide Ids, KeyIds, Separate;
    if i < |b.fields| {
      var (key, sub) := b.fields[i];
      if key in kids {
        KeepsIds(kids[key], sub);
      }
      OneKid(id, kids, KidsKey(kids, b, i), key);
      KidsKeepIds(id, KidsKey(kids, b, i), b, i + 1);
    }
  }

  lemma OneKid(id: nat, kids: map<string, Tree>, after: map<string, Tree>, key: string)
    requires key in after && after == kids[key := after[key]]
    requires
      if key in kids then
        && Ids(after[key]) == Ids(kids[key]) && KeyIds(after[key]) == KeyIds(kids[key])
        && (Separate(kids[key]) ==> Separate(after[key]))
      else after[key].Leaf?
    ensures Ids(Branch(id, after)) == Ids(Branch(id, kids)) && KeyIds(Branch(id, after)) == KeyIds(Branch(id, kids))
    ensures Separate(Branch(id, kids)) ==> Separate(Branch(id, after))
  {
    forall x
      ensures x in Ids(Branch(id, after)) <==> x in Ids(Branch(id, kids))
      ensures x in KeyIds(Branch(id, after)) <==> x in KeyIds(Branch(id, kids))
    {
      OneKidIds(id, kids, after, key, x);
      OneKidIds(id, after, kids, key, x);
    }
  }

  lemma OneKidIds(id: nat, kids: map<string, Tree>, after: map<string, Tree>, key: string, x: nat)
    requires forall k :: k in kids && k != key ==> k in after && after[k] == kids[k]
    requires
      if key in kids && key in after then Ids(after[key]) == Ids(kids[key]) && KeyIds(after[key]) == KeyIds(kids[key])
      else key in kids ==> kids[key].Leaf?
    ensures x in Ids(Branch(id, kids)) ==> x in Ids(Branch(id, after))
    ensures x in KeyIds(Branch(id, kids)) ==> x in KeyIds(Branch(id, after))
  {
    if x in Ids(Branch(id, kids)) && x != id {
      var k :| k in kids && x in Ids(kids[k]);
      assert k in after && x in Ids(after[k]);
    }
    if x in KeyIds(Branch(id, kids)) && x != id {
      var k :| k in kids && x in KeyIds(kids[k]);
      assert k in after && x in KeyIds(after[k]);
    }
  }

  /** On a tree the store ends as the updated tree. */
  lemma {:induction false} UpdateFits(store: Store, n: Node, t: Tree, b: Defaults)
    requires Fits(store, n, t) && Separate(t)
    ensures Fits(Update(store, n, b).0, Update(store, n, b).1, TreeUpdate(t, b))
    ensures SameBut(store, Update(store, n, b).0, KeyIds(t))
    decreases b
  {
    if t.Branch? && b.Fields? {
      UpdateFromFits(store, t.id, t.kids, b, 0);
    }
  }

  lemma {:induction false} UpdateFromFits(store: Store, id: nat, kids: map<string, Tree>, b: Defaults, i: nat)
    requires b.Fields? && i <= |b.fields|
    requires Fits(store, Ref(id), Branch(id, kids)) && Separate(Branch(id, kids))
    ensures Fits(UpdateFrom(store, id, b, i), Ref(id), Branch(id, KidsFrom(kids, b, i)))
    ensures SameBut(store, UpdateFrom(store, id, b, i), KeyIds(Branch(id, kids)))
    decreases b, |b.fields| - i
  {
    hide KeyIds, Separate;
    if i < |b.fields| {
      UpdateKeyFits(store, id, kids, b, i);
      UpdateFromFits(UpdateKey(store, id, b, i), id, KidsKey(kids, b, i), b, i + 1);
    }
  }

  lemma {:induction false} UpdateKeyFits(store: Store, id: nat, kids: map<string, Tree>, b: Defaults, i: nat)
    requires b.Fields? && i < |b.fields|
    requires Fits(store, Ref(id), Branch(id, kids)) && Separate(Branch(id, kids))
    ensures Fits(UpdateKey(store, id, b, i), Ref(id), Branch(id, KidsKey(kids, b, i)))
    ensures SameBut(store, UpdateKey(store, id, b, i), KeyIds(Branch(id, kids)))
    ensures Separate(Branch(id, KidsKey(kids, b, i))) && KeyIds(Branch(id, KidsKey(kids, b, i))) == KeyIds(Branch(id, kids))
    decreases b, 0
  {
    var (key, sub) := b.fields[i];
    if key in kids {
      KeepsIds(kids[key], sub);
      UpdateFits(store, store[id][key], kids[key], sub);
      var (after, node) := Update(store, store[id][key], sub);
      KidFits(store, after, id, kids, key, node, TreeUpdate(kids[key], sub));
    } else {
      KidFits(store, store, id, kids, key, Plain(Content(sub)), Leaf(Content(sub)));
    }
    OneKid(id, kids, KidsKey(kids, b, i), key);
  }

  /** A dict one of whose values has been updated, and stored. */
  lemma KidFits(store: Store, after: Store, id: nat, kids: map<string, Tree>, key: string, node: Node, kid: Tree)
    requires Fits(store, Ref(id), Branch(id, kids)) && Separate(Branch(id, kids)) && id !in Ids(kid)
    requires Fits(after, node, kid) && SameBut(store, after, if key in kids then KeyIds(kids[key]) else {})
    ensures
      var stored := after[id := after[id][key := node]];
      Fits(stored, Ref(id), Branch(id, kids[key := kid])) && SameBut(store, stored, KeyIds(Branch(id, kids)))
  {
    hide Separate, Ids, KeyIds;
    var stored := after[id := after[id][key := node]];
    SeparateKids(id, kids);
    IdsStored(after, node, kid);
    FitsElsewhere(after, stored, node, kid);
    forall k | k in kids && k != key
      ensures Fits(stored, stored[id][k], kids[k])
    {
      IdsStored(store, store[id][k], kids[k]);
      FitsElsewhere(store, stored, store[id][k], kids[k]);
    }
  }

  lemma {:induction false} KeyIdsAmongIds(t: Tree)
    ensures KeyIds(t) <= Ids(t)
  {
    if t.Branch? {
      forall k | k in t.kids
        ensures KeyIds(t.kids[k]) <= Ids(t.kids[k])
      {
        KeyIdsAmongIds(t.kids[k]);
      }
    }
  }

  lemma SeparateKids(id: nat, kids: map<string, Tree>)
    requires Separate(Branch(id, kids))
    ensures forall k :: k in kids ==> id !in Ids(kids[k]) && id !in KeyIds(kids[k])
    ensures forall j, k :: j in kids && k in kids && j != k ==> KeyIds(kids[j]) !! Ids(kids[k])
    ensures forall k :: k in kids ==> KeyIds(kids[k]) <= KeyIds(Branch(id, kids))
    ensures id in KeyIds(Branch(id, kids))
  {
    forall k | k in kids
      ensures id !in KeyIds(kids[k])
    {
      KeyIdsAmongIds(kids[k]);
    }
  }

  lemma {:induction false} IdsStored(store: Store, n: Node, t: Tree)
    requires Fits(store, n, t)
    ensures forall x :: x in Ids(t) ==> x in store
    decreases t
  {
    if t.Branch? {
      forall k | k in t.kids
        ensures forall x :: x in Ids(t.kids[k]) ==> x in store
      {
        IdsStored(store, store[t.id][k], t.kids[k]);
      }
    } else if t.Bundle? {
      forall i | 0 <= i < |t.items|
        ensures forall x :: x in Ids(t.items[i]) ==> x in store
      {
        IdsStored(store, n.nodes[i], t.items[i]);
      }
    }
  }

  function EraseKids(kids: map<string, Tree>): map<string, Json> {
    map k | k in kids :: Erase(kids[k])
  }

  function MergeFields(a: map<string, Json>, b: map<string, Json>): map<string, Json> {
    map k | k in a.Keys + b.Keys ::
      if k !in a then b[k] else if k in b then Merge(a[k], b[k]) else a[k]
  }

  /** And that tree means the merge. */
  lemma {:induction false} UpdateErases(t: Tree, b: Defaults)
    requires Proper(b)
    ensures Erase(TreeUpdate(t, b)) == Merge(Erase(t), Content(b))
    decreases b
  {
    if t.Branch? && b.Fields? {
      KidsErase(t.kids, b, 0);
      assert Erase(t) == Object(EraseKids(t.kids));
      assert Merge(Erase(t), Content(b)) == Object(MergeFields(EraseKids(t.kids), ContentFrom(b, 0)));
    }
  }

  lemma {:induction false} KidsErase(kids: map<string, Tree>, b: Defaults, i: nat)
    requires b.Fields? && i <= |b.fields| && Proper(b)
    ensures EraseKids(KidsFrom(kids, b, i)) == MergeFields(EraseKids(kids), ContentFrom(b, i))
    decreases b, |b.fields| - i
  {
    hide Merge, Erase;
    if i < |b.fields| {
      var (key, sub) := b.fields[i];
      if key in kids {
        UpdateErases(kids[key], sub);
      }
      KidsErase(KidsKey(kids, b, i), b, i + 1);
      ContentKeys(b, i + 1);
      EraseKey(kids, b, i);
      MergeFieldsStep(EraseKids(kids), ContentFrom(b, i + 1), key, Content(sub));
    }
  }

  lemma EraseKey(kids: map<string, Tree>, b: Defaults, i: nat)
    requires b.Fields? && i < |b.fields|
    requires b.fields[i].0 in kids ==>
               Erase(TreeUpdate(kids[b.fields[i].0], b.fields[i].1)) == Merge(Erase(kids[b.fields[i].0]), Content(b.fields[i].1))
    ensures
      var (key, v) := (b.fields[i].0, Content(b.fields[i].1));
      var a := EraseKids(kids);
      EraseKids(KidsKey(kids, b, i)) == a[key := if key in a then Merge(a[key], v) else v]
  {
    hide Merge;
  }

  lemma {:induction false} ContentKeys(b: Defaults, i: nat)
    requires b.Fields? && i <= |b.fields|
    ensures forall k :: k in ContentFrom(b, i) <==> exists j :: i <= j < |b.fields| && b.fields[j].0 == k
    decreases |b.fields| - i
  {
    if i < |b.fields| {
      ContentKeys(b, i + 1);
    }
  }

  lemma MergeFieldsStep(a: map<string, Json>, b: map<string, Json>, key: string, v: Json)
    requires key !in b
    ensures MergeFields(a, b[key := v]) == MergeFields(a[key := if key in a then Merge(a[key], v) else v], b)
  {
    hide Merge;
  }

  // ---- With sharing --------------------------------------------------------------------------

  /** One step into a value. */
  datatype Step = Key(name: string) | Index(place: nat)

  predicate AllKeys(path: seq<Step>) {
    forall i :: 0 <= i < |path| ==> path[i].Key?
  }

  function Kid(t: Tree, step: Step): Option<Tree> {
    match (t, step)
    case (Branch(_, kids), Key(name)) => if name in kids then Some(kids[name]) else None
    case (Bundle(items), Index(place)) => if place < |items| then Some(items[place]) else None
    case _ => None
  }

  /** The path leads to the dict at that place. */
  predicate LeadsTo(t: Tree, path: seq<Step>, id: nat)
    decreases path
  {
    if path == [] then t.Branch? && t.id == id
    else Kid(t, path[0]).Some? && LeadsTo(Kid(t, path[0]).value, path[1..], id)
  }

  lemma Deeper(t: Tree, step: Step, path: seq<Step>, id: nat)
    requires Kid(t, step).Some? && LeadsTo(Kid(t, step).value, path, id)
    ensures LeadsTo(t, [step] + path, id)
    ensures step.Key? && AllKeys(path) ==> AllKeys([step] + path)
  {
    assert ([step] + path)[1..] == path;
  }

  lemma {:induction false} PathTo(t: Tree, id: nat) returns (path: seq<Step>)
    requires id in Ids(t)
    ensures LeadsTo(t, path, id)
    decreases t
  {
    if t.Branch? && t.id == id {
      path := [];
    } else if t.Branch? {
      var k :| k in t.kids && id in Ids(t.kids[k]);
      var rest := PathTo(t.kids[k], id);
      Deeper(t, Key(k), rest, id);
      path := [Key(k)] + rest;
    } else {
      var i :| 0 <= i < |t.items| && id in Ids(t.items[i]);
      var rest := PathTo(t.items[i], id);
      Deeper(t, Index(i), rest, id);
      path := [Index(i)] + rest;
    }
  }

  lemma {:induction false} KeyPathTo(t: Tree, id: nat) returns (path: seq<Step>)
    requires id in KeyIds(t)
    ensures AllKeys(path) && LeadsTo(t, path, id)
    decreases t
  {
    if t.id == id {
      path := [];
    } else {
      var k :| k in t.kids && id in KeyIds(t.kids[k]);
      var rest := KeyPathTo(t.kids[k], id);
      Deeper(t, Key(k), rest, id);
      path := [Key(k)] + rest;
    }
  }

  /** Otherwise a dict has a path of keys to it and a second one. */
  lemma {:induction false} SharedPaths(t: Tree) returns (p: seq<Step>, q: seq<Step>, id: nat)
    requires !Separate(t)
    ensures AllKeys(p) && p != q && LeadsTo(t, p, id) && LeadsTo(t, q, id)
    decreases t
  {
    hide LeadsTo, Ids, KeyIds;
    if k :| k in t.kids && t.id in Ids(t.kids[k]) {
      id := t.id;
      var rest := PathTo(t.kids[k], id);
      Deeper(t, Key(k), rest, id);
      LeadsHere(t);
      p, q := [], [Key(k)] + rest;
    } else if k :| k in t.kids && !Separate(t.kids[k]) {
      p, q, id := SharedPaths(t.kids[k]);
      Deeper(t, Key(k), p, id);
      Deeper(t, Key(k), q, id);
      assert ([Key(k)] + p)[1..] == p && ([Key(k)] + q)[1..] == q;
      p, q := [Key(k)] + p, [Key(k)] + q;
    } else {
      var j, k :| j in t.kids && k in t.kids && j != k && !(KeyIds(t.kids[j]) !! Ids(t.kids[k]));
      id :| id in KeyIds(t.kids[j]) && id in Ids(t.kids[k]);
      p := KeyPathTo(t.kids[j], id);
      q := PathTo(t.kids[k], id);
      Deeper(t, Key(j), p, id);
      Deeper(t, Key(k), q, id);
      p, q := [Key(j)] + p, [Key(k)] + q;
      assert p[0] != q[0];
    }
  }

  lemma {:induction false} LedIsReached(t: Tree, path: seq<Step>, id: nat)
    requires LeadsTo(t, path, id)
    ensures id in Ids(t) && (AllKeys(path) ==> id in KeyIds(t))
    decreases path
  {
    if path != [] {
      LedIsReached(Kid(t, path[0]).value, path[1..], id);
    }
  }

  /** A path of keys to a dict is the only path to it. */
  lemma {:induction false} OnlyPath(t: Tree, p: seq<Step>, q: seq<Step>, id: nat)
    requires Separate(t) && AllKeys(p) && LeadsTo(t, p, id) && LeadsTo(t, q, id)
    ensures p == q
    decreases p
  {
    hide Ids, KeyIds;
    if p != [] {
      LedIsReached(Kid(t, p[0]).value, p[1..], id);
    }
    if q != [] {
      LedIsReached(Kid(t, q[0]).value, q[1..], id);
    }
    if p != [] && q != [] && p[0] == q[0] {
      OnlyPath(Kid(t, p[0]).value, p[1..], q[1..], id);
      assert p == [p[0]] + p[1..] && q == [q[0]] + q[1..];
    }
  }

  /** Said of paths: each dict that keys alone lead to has no second path to it. */
  lemma SeparateIffOnePath(t: Tree)
    ensures Separate(t)
            <==> forall p, q, id: nat :: AllKeys(p) && LeadsTo(t, p, id) && LeadsTo(t, q, id) ==> p == q
  {
    if Separate(t) {
      forall p, q, id: nat | AllKeys(p) && LeadsTo(t, p, id) && LeadsTo(t, q, id)
        ensures p == q
      {
        OnlyPath(t, p, q, id);
      }
    } else {
      var p, q, id := SharedPaths(t);
    }
  }

  lemma LeadsHere(t: Tree)
    requires t.Branch?
    ensures LeadsTo(t, [], t.id)
  {
  }

  /** Defaults with a single value. */
  function Single(path: seq<Step>, key: string, value: Json): Defaults
    requires AllKeys(path)
  {
    if path == [] then Fields([(key, Value(value))])
    else Fields([(path[0].name, Single(path[1..], key, value))])
  }

  lemma {:induction false} SingleIsProper(path: seq<Step>, key: string, text: string)
    requires AllKeys(path)
    ensures Proper(Single(path, key, Scalar(text)))
  {
    if path != [] {
      SingleIsProper(path[1..], key, text);
    }
  }

  lemma StoredAgain(store: Store, id: nat, key: string)
    requires id in store && key in store[id]
    ensures store[id := store[id][key := store[id][key]]] == store
  {
    assert store[id][key := store[id][key]] == store[id];
  }

  /** A single default goes into the dict its path leads to. */
  lemma {:induction false} UpdateSingle(store: Store, n: Node, t: Tree, path: seq<Step>, id: nat, key: string, value: Json)
    requires Fits(store, n, t) && AllKeys(path) && LeadsTo(t, path, id)
    requires id in store && key !in store[id]
    ensures Update(store, n, Single(path, key, value)) == (store[id := store[id][key := Plain(value)]], n)
    decreases path
  {
    var b := Single(path, key, value);
    assert Update(store, n, b).0 == UpdateFrom(store, t.id, b, 0) == UpdateFrom(UpdateKey(store, t.id, b, 0), t.id, b, 1);
    if path != [] {
      var k := path[0].name;
      UpdateSingle(store, store[t.id][k], t.kids[k], path[1..], id, key, value);
      var after := store[id := store[id][key := Plain(value)]];
      assert after[t.id][k] == store[t.id][k];
      StoredAgain(after, t.id, k);
    }
  }

  /** One step through a store. */
  function Next(store: Store, n: Node, step: Step): Option<Node> {
    match (n, step)
    case (Ref(id), Key(name)) => if id in store && name in store[id] then Some(store[id][name]) else None
    case (Items(nodes), Index(place)) => if place < |nodes| then Some(nodes[place]) else None
    case _ => None
  }

  function Walk(store: Store, n: Node, path: seq<Step>): Option<Node>
    decreases path
  {
    if path == [] then Some(n)
    else if Next(store, n, path[0]).Some? then Walk(store, Next(store, n, path[0]).value, path[1..])
    else None
  }

  /** One step through a value, and all of them. */
  function Inside(j: Json, step: Step): Option<Json> {
    match (j, step)
    case (Object(fields), Key(name)) => if name in fields then Some(fields[name]) else None
    case (List(items), Index(place)) => if place < |items| then Some(items[place]) else None
    case _ => None
  }

  function Found(j: Json, path: seq<Step>): Option<Json>
    decreases path
  {
    if path == [] then Some(j)
    else if Inside(j, path[0]).Some? then Found(Inside(j, path[0]).value, path[1..])
    else None
  }

  lemma StepFits(store: Store, n: Node, t: Tree, step: Step)
    requires Fits(store, n, t)
    ensures Kid(t, step).Some? ==>
              && Next(store, n, step).Some? && Fits(store, Next(store, n, step).value, Kid(t, step).value)
              && Inside(Erase(t), step) == Some(Erase(Kid(t, step).value))
    ensures Kid(t, step).None? ==> Next(store, n, step).None? && (!t.Leaf? ==> Inside(Erase(t), step).None?)
  {
  }

  lemma {:induction false} WalkFound(store: Store, n: Node, t: Tree, path: seq<Step>, value: Json)
    requires Fits(store, n, t) && Walk(store, n, path) == Some(Plain(value))
    ensures Found(Erase(t), path) == Some(value)
    decreases path
  {
    hide Fits, Erase, Kid, Next, Inside;
    if path == [] {
      PlainFits(store, n, t);
    } else {
      StepFits(store, n, t, path[0]);
      WalkFound(store, Next(store, n, path[0]).value, Kid(t, path[0]).value, path[1..], value);
    }
  }

  lemma PlainFits(store: Store, n: Node, t: Tree)
    requires Fits(store, n, t) && n.Plain?
    ensures Erase(t) == n.value
  {
  }

  /** The value put into a dict is found under every path to it. */
  lemma {:induction false} FoundEverywhere(store: Store, n: Node, t: Tree, path: seq<Step>, id: nat, key: string, value: Json)
    requires Fits(store, n, t) && LeadsTo(t, path, id)
    requires id in store && key !in store[id]
    ensures Walk(store[id := store[id][key := Plain(value)]], n, path + [Key(key)]) == Some(Plain(value))
    decreases path
  {
    var after := store[id := store[id][key := Plain(value)]];
    if path == [] {
      assert (path + [Key(key)])[1..] == [];
    } else {
      StepFits(store, n, t, path[0]);
      FoundEverywhere(store, Next(store, n, path[0]).value, Kid(t, path[0]).value, path[1..], id, key, value);
      assert (path + [Key(key)])[1..] == path[1..] + [Key(key)];
      assert Next(after, n, path[0]) == Next(store, n, path[0]);
    }
  }

  /** It was not there before. */
  lemma {:induction false} AbsentThere(store: Store, n: Node, t: Tree, path: seq<Step>, id: nat, key: string)
    requires Fits(store, n, t) && LeadsTo(t, path, id) && id in store && key !in store[id]
    ensures Found(Erase(t), path + [Key(key)]) == None
    decreases path
  {
    if path == [] {
      assert (path + [Key(key)])[1..] == [];
    } else {
      hide Fits, Erase, Kid, Inside;
      StepFits(store, n, t, path[0]);
      AbsentThere(store, Next(store, n, path[0]).value, Kid(t, path[0]).value, path[1..], id, key);
      assert (path + [Key(key)])[1..] == path[1..] + [Key(key)];
    }
  }

  lemma SingleContent(path: seq<Step>, key: string, value: Json)
    requires AllKeys(path)
    ensures Content(Single(path, key, value))
            == Object(if path == [] then map[key := value] else map[path[0].name := Content(Single(path[1..], key, value))])
  {
    var b := Single(path, key, value);
    assert ContentFrom(b, 1) == map[];
    assert Content(b) == Object(map[b.fields[0].0 := Content(b.fields[0].1)]);
    assert Content(Value(value)) == value;
  }

  /** The merge has it under its own path only. */
  lemma {:induction false} MergedOnlyThere(store: Store, n: Node, t: Tree, p: seq<Step>, q: seq<Step>, id: nat, key: string, value: Json)
    requires Fits(store, n, t) && AllKeys(p) && LeadsTo(t, p, id) && LeadsTo(t, q, id) && p != q
    requires id in store && key !in store[id] && Key(key) !in p
    ensures Found(Merge(Erase(t), Content(Single(p, key, value))), q + [Key(key)]) == None
    decreases p
  {
    hide Merge, Single, Content, Found;
    var path, b := q + [Key(key)], Content(Single(p, key, value));
    SingleContent(p, key, value);
    var step := path[0];
    FoundFirst(Merge(Erase(t), b), path);
    assert t.Branch?;
    if q == [] {
      assert p[0].name != key;
      MergedStep(Erase(t), b, step);
    } else {
      assert path[1..] == q[1..] + [Key(key)];
      StepFits(store, n, t, step);
      MergedStep(Erase(t), b, step);
      if p != [] && step == p[0] {
        assert p == [p[0]] + p[1..] && q == [q[0]] + q[1..];
        MergedOnlyThere(store, store[t.id][step.name], t.kids[step.name], p[1..], q[1..], id, key, value);
      } else {
        AbsentThere(store, Next(store, n, step).value, Kid(t, step).value, q[1..], id, key);
      }
    }
  }

  lemma FoundFirst(j: Json, path: seq<Step>)
    requires path != []
    ensures Found(j, path) == if Inside(j, path[0]).Some? then Found(Inside(j, path[0]).value, path[1..]) else None
  {
  }

  lemma MergedStep(a: Json, b: Json, step: Step)
    requires a.Object? && b.Object? && step.Key?
    ensures Inside(Merge(a, b), step)
            == if step.name !in a.fields then Inside(b, step)
               else if step.name in b.fields then Some(Merge(a.fields[step.name], b.fields[step.name]))
               else Inside(a, step)
  {
  }

  /** A name longer than all of the given ones. */
  lemma {:induction false} LongestOf(names: set<string>) returns (n: nat)
    ensures forall k :: k in names ==> |k| < n
  {
    if names == {} {
      n := 0;
    } else {
      var k :| k in names;
      n := LongestOf(names - {k});
      n := if n > |k| then n else |k| + 1;
    }
  }

  // ---- The condition -----------------------------------------------------------------------------

  /** deep_update with the defaults b leaves n meaning the merge. */
  ghost predicate ComputesMerge(store: Store, n: Node, t: Tree, b: Defaults) {
    exists after ::
      && Fits(Update(store, n, b).0, Update(store, n, b).1, after)
      && Erase(after) == Merge(Erase(t), Content(b))
  }

  /** On a configuration n that unfolds to t, deep_update computes the merge for all defaults
      exactly when no dict that keys alone lead to is reached in a second way. */
  lemma MergesIffTree(store: Store, n: Node, t: Tree)
    requires Fits(store, n, t)
    ensures (forall b :: Proper(b) ==> ComputesMerge(store, n, t, b)) <==> Separate(t)
  {
    if Separate(t) {
      forall b | Proper(b)
        ensures ComputesMerge(store, n, t, b)
      {
        UpdateFits(store, n, t, b);
        UpdateErases(t, b);
      }
    } else {
      var b := SharedFails(store, n, t);
    }
  }

  /** Defaults for a path of keys to a dict show up under the other path to it. */
  lemma SharedFails(store: Store, n: Node, t: Tree) returns (b: Defaults)
    requires Fits(store, n, t) && !Separate(t)
    ensures Proper(b) && !ComputesMerge(store, n, t, b)
  {
    hide Update, Merge, Erase, Walk, Fits, Separate, Single, Proper, Found;
    var p, q, id := SharedPaths(t);
    LedThere(store, n, t, p, id);
    var length := LongestOf(store[id].Keys + set i | 0 <= i < |p| :: p[i].name);
    var key := seq(length, i => 'k');
    assert key !in store[id];
    assert Key(key) !in p;
    b := Single(p, key, Scalar(""));
    SingleIsProper(p, key, "");
    UpdateSingle(store, n, t, p, id, key, Scalar(""));
    FoundEverywhere(store, n, t, q, id, key, Scalar(""));
    MergedOnlyThere(store, n, t, p, q, id, key, Scalar(""));
    forall after | Fits(Update(store, n, b).0, n, after)
      ensures Erase(after) != Merge(Erase(t), Content(b))
    {
      WalkFound(Update(store, n, b).0, n, after, q + [Key(key)], Scalar(""));
    }
  }

  lemma {:induction false} LedThere(store: Store, n: Node, t: Tree, path: seq<Step>, id: nat)
    requires Fits(store, n, t) && LeadsTo(t, path, id)
    ensures id in store
    decreases path
  {
    if path != [] {
      StepFits(store, n, t, path[0]);
      LedThere(store, Next(store, n, path[0]).value, Kid(t, path[0]).value, path[1..], id);
    }
  }

  // ---- Copies ------------------------------------------------------------------------------------

  /** Places from k on are free. */
  predicate Free(store: Store, k: nat) {
    forall id :: id in store ==> id < k
  }

  /** deepcopy keeps what is shared shared: here it copies each dict to a place k further on. */
  function Shifted(n: Node, k: nat): Node {
    match n
    case Plain(_) => n
    case Items(nodes) => Items(seq(|nodes|, i requires 0 <= i < |nodes| => Shifted(nodes[i], k)))
    case Ref(id) => Ref(id + k)
  }

  function ShiftedFields(fields: map<string, Node>, k: nat): map<string, Node> {
    map key | key in fields :: Shifted(fields[key], k)
  }

  function Copied(store: Store, k: nat): Store {
    store + map x | x in Places(store, k) :: ShiftedFields(store[x - k], k)
  }

  function Places(store: Store, k: nat): (r: set<nat>)
    ensures forall x :: x in r <==> x >= k && x - k in store
  {
    set id | id in store :: id + k
  }

  function ShiftedTree(t: Tree, k: nat): Tree {
    match t
    case Leaf(_) => t
    case Bundle(items) => Bundle(seq(|items|, i requires 0 <= i < |items| => ShiftedTree(items[i], k)))
    case Branch(id, kids) => Branch(id + k, map key | key in kids :: ShiftedTree(kids[key], k))
  }

  lemma CopiedAt(store: Store, k: nat, id: nat)
    requires Free(store, k) && id in store
    ensures id + k in Copied(store, k) && Copied(store, k)[id + k] == ShiftedFields(store[id], k)
  {
  }

  lemma {:induction false} CopyFits(store: Store, n: Node, t: Tree, k: nat)
    requires Fits(store, n, t) && Free(store, k)
    ensures Fits(Copied(store, k), Shifted(n, k), ShiftedTree(t, k))
    decreases t
  {
    if t.Branch? {
      CopiedAt(store, k, t.id);
      hide Copied;
      forall key | key in t.kids
        ensures Fits(Copied(store, k), Shifted(store[t.id][key], k), ShiftedTree(t.kids[key], k))
      {
        CopyFits(store, store[t.id][key], t.kids[key], k);
      }
    } else if t.Bundle? {
      forall i | 0 <= i < |t.items|
        ensures Fits(Copied(store, k), Shifted(n.nodes[i], k), ShiftedTree(t.items[i], k))
      {
        CopyFits(store, n.nodes[i], t.items[i], k);
      }
    }
  }

  lemma {:induction false} CopyMeans(t: Tree, k: nat)
    ensures Erase(ShiftedTree(t, k)) == Erase(t)
  {
    if t.Branch? {
      forall key | key in t.kids
        ensures Erase(ShiftedTree(t.kids[key], k)) == Erase(t.kids[key])
      {
        CopyMeans(t.kids[key], k);
      }
    } else if t.Bundle? {
      forall i | 0 <= i < |t.items|
        ensures Erase(ShiftedTree(t.items[i], k)) == Erase(t.items[i])
      {
        CopyMeans(t.items[i], k);
      }
      assert Erase(ShiftedTree(t, k)).items == Erase(t).items;
    }
  }

  lemma {:induction false} CopyLeads(t: Tree, path: seq<Step>, id: nat, k: nat)
    ensures LeadsTo(t, path, id) <==> LeadsTo(ShiftedTree(t, k), path, id + k)
    decreases path
  {
    if path != [] {
      assert Kid(ShiftedTree(t, k), path[0]).Some? <==> Kid(t, path[0]).Some?;
      if Kid(t, path[0]).Some? {
        assert Kid(ShiftedTree(t, k), path[0]).value == ShiftedTree(Kid(t, path[0]).value, k);
        CopyLeads(Kid(t, path[0]).value, path[1..], id, k);
      }
    }
  }

  lemma {:induction false} CopyIds(t: Tree, path: seq<Step>, id: nat, k: nat)
    requires LeadsTo(ShiftedTree(t, k), path, id)
    ensures id >= k
    decreases path
  {
    if path != [] {
      assert Kid(t, path[0]).Some?;
      assert Kid(ShiftedTree(t, k), path[0]).value == ShiftedTree(Kid(t, path[0]).value, k);
      CopyIds(Kid(t, path[0]).value, path[1..], id, k);
    }
  }

  /** A copy shares exactly what the original does. */
  lemma CopySeparate(t: Tree, k: nat)
    ensures Separate(ShiftedTree(t, k)) <==> Separate(t)
  {
    hide Separate, LeadsTo, ShiftedTree;
    SeparateIffOnePath(t);
    SeparateIffOnePath(ShiftedTree(t, k));
    if Separate(t) {
      forall p, q, id: nat | AllKeys(p) && LeadsTo(ShiftedTree(t, k), p, id) && LeadsTo(ShiftedTree(t, k), q, id)
        ensures p == q
      {
        CopyIds(t, p, id, k);
        CopyLeads(t, p, id - k, k);
        CopyLeads(t, q, id - k, k);
      }
    } else {
      var p, q, id := SharedPaths(t);
      CopyLeads(t, p, id, k);
      CopyLeads(t, q, id, k);
    }
  }

  /** A value that refers to dicts from k on only. */
  predicate Above(n: Node, k: nat) {
    match n
    case Plain(_) => true
    case Items(nodes) => forall i :: 0 <= i < |nodes| ==> Above(nodes[i], k)
    case Ref(id) => id >= k
  }

  predicate ClosedAbove(store: Store, k: nat) {
    forall id, key :: id in store && id >= k && key in store[id] ==> Above(store[id][key], k)
  }

  lemma {:induction false} ShiftedAbove(n: Node, k: nat)
    ensures Above(Shifted(n, k), k)
  {
    if n.Items? {
      forall i | 0 <= i < |n.nodes|
        ensures Above(Shifted(n.nodes[i], k), k)
      {
        ShiftedAbove(n.nodes[i], k);
      }
    }
  }

  lemma CopyClosed(store: Store, k: nat)
    requires Free(store, k)
    ensures ClosedAbove(Copied(store, k), k)
  {
    hide Above;
    forall id, key | id in Copied(store, k) && id >= k && key in Copied(store, k)[id]
      ensures Above(Copied(store, k)[id][key], k)
    {
      CopiedAt(store, k, id - k);
      ShiftedAbove(store[id - k][key], k);
    }
  }

  ghost predicate SameBelow(store: Store, after: Store, k: nat) {
    forall id :: id in store && id < k ==> id in after && after[id] == store[id]
  }

  lemma {:induction false} UpdateStaysAbove(store: Store, n: Node, b: Defaults, k: nat)
    requires Above(n, k) && ClosedAbove(store, k)
    ensures Above(Update(store, n, b).1, k) && ClosedAbove(Update(store, n, b).0, k)
    ensures SameBelow(store, Update(store, n, b).0, k)
    decreases b
  {
    if n.Ref? && b.Fields? && n.id in store {
      UpdateFromStaysAbove(store, n.id, b, 0, k);
    }
  }

  lemma {:induction false} UpdateFromStaysAbove(store: Store, id: nat, b: Defaults, i: nat, k: nat)
    requires b.Fields? && i <= |b.fields| && id in store && id >= k && ClosedAbove(store, k)
    ensures ClosedAbove(UpdateFrom(store, id, b, i), k) && SameBelow(store, UpdateFrom(store, id, b, i), k)
    decreases b, |b.fields| - i
  {
    hide ClosedAbove;
    if i < |b.fields| {
      var (key, sub) := b.fields[i];
      if key in store[id] {
        ClosedAt(store, id, key, k);
        UpdateStaysAbove(store, store[id][key], sub, k);
        var (after, node) := Update(store, store[id][key], sub);
        StoredAbove(after, id, key, node, k);
      } else {
        StoredAbove(store, id, key, Plain(Content(sub)), k);
      }
      UpdateFromStaysAbove(UpdateKey(store, id, b, i), id, b, i + 1, k);
    }
  }

  lemma ClosedAt(store: Store, id: nat, key: string, k: nat)
    requires ClosedAbove(store, k) && id in store && id >= k && key in store[id]
    ensures Above(store[id][key], k)
  {
  }

  lemma StoredAbove(store: Store, id: nat, key: string, node: Node, k: nat)
    requires ClosedAbove(store, k) && id in store && id >= k && Above(node, k)
    ensures ClosedAbove(store[id := store[id][key := node]], k)
  {
    hide Above;
  }

  /** For every configuration, whatever is shared in it: the user's own stays as it was. */
  lemma ConfigureKeepsUser(store: Store, k: nat, n: Node, t: Tree, b: Defaults)
    requires Fits(store, n, t) && Free(store, k)
    ensures Fits(Update(Copied(store, k), Shifted(n, k), b).0, n, t)
  {
    hide Fits, Ids, Update, Copied;
    var after := Update(Copied(store, k), Shifted(n, k), b).0;
    ShiftedAbove(n, k);
    CopyClosed(store, k);
    UpdateStaysAbove(Copied(store, k), Shifted(n, k), b, k);
    IdsStored(store, n, t);
    CopyKeeps(store, k);
    FitsElsewhere(store, after, n, t);
  }

  lemma CopyKeeps(store: Store, k: nat)
    requires Free(store, k)
    ensures forall id :: id in store ==> id in Copied(store, k) && Copied(store, k)[id] == store[id]
  {
  }

  /** And the result is the merge, for all defaults, exactly when no dict that keys alone lead
      to in the user's is reached in a second way. */
  lemma ConfigureMergesIff(store: Store, k: nat, n: Node, t: Tree)
    requires Fits(store, n, t) && Free(store, k)
    ensures
      (forall b :: Proper(b) ==> ComputesMerge(Copied(store, k), Shifted(n, k), ShiftedTree(t, k), b)) <==> Separate(t)
    ensures Erase(ShiftedTree(t, k)) == Erase(t)
  {
    CopyFits(store, n, t, k);
    CopyMeans(t, k);
    CopySeparate(t, k);
    MergesIffTree(Copied(store, k), Shifted(n, k), ShiftedTree(t, k));
  }

  // ---- Inputs ---------------------------------------------------------------------------------------

  /** One default that a dict does not have. */
  lemma UpdateOne(store: Store, id: nat, key: string, text: string)
    requires id in store && key !in store[id]
    ensures Update(store, Ref(id), Fields([(key, Value(Scalar(text)))])) == (store[id := store[id][key := Plain(Scalar(text))]], Ref(id))
  {
    var b := Fields([(key, Value(Scalar(text)))]);
    var after := store[id := store[id][key := Plain(Scalar(text))]];
    assert UpdateKey(store, id, b, 0) == after;
    assert UpdateFrom(after, id, b, 1) == after;
  }

  /** One default for a dict of the dict, which stays where it is. */
  lemma UpdateBelow(store: Store, id: nat, b: Defaults, i: nat, kid: nat, after: Store)
    requires b.Fields? && i < |b.fields| && id in store && b.fields[i].0 in store[id]
    requires Update(store, store[id][b.fields[i].0], b.fields[i].1) == (after, Ref(kid))
    requires id in after && b.fields[i].0 in after[id] && after[id][b.fields[i].0] == Ref(kid)
    ensures UpdateKey(store, id, b, i) == after
  {
    StoredAgain(after, id, b.fields[i].0);
  }

  lemma LoopOfTwo(store: Store, id: nat, b: Defaults, one: Store, two: Store)
    requires b.Fields? && |b.fields| == 2 && id in store && id in one && id in two
    requires UpdateKey(store, id, b, 0) == one && UpdateKey(one, id, b, 1) == two
    ensures Update(store, Ref(id), b) == (two, Ref(id))
  {
    hide UpdateKey;
    assert UpdateFrom(two, id, b, 2) == two;
    assert UpdateFrom(one, id, b, 1) == two;
  }

  /** The defaults {a: {q: 2}, b: {r: 3}}. */
  const TWO_DEFAULTS: Defaults :=
    Fields([("a", Fields([("q", Value(Scalar("2")))])), ("b", Fields([("r", Value(Scalar("3")))]))])

  lemma BothEndThere(store: Store)
    requires 0 in store && 1 in store
    requires "a" in store[0] && store[0]["a"] == Ref(1) && "b" in store[0] && store[0]["b"] == Ref(1)
    requires "q" !in store[1] && "r" !in store[1]
    ensures Update(store, Ref(0), TWO_DEFAULTS) == (store[1 := store[1]["q" := Plain(Scalar("2"))]["r" := Plain(Scalar("3"))]], Ref(0))
  {
    var one := store[1 := store[1]["q" := Plain(Scalar("2"))]];
    var two := store[1 := store[1]["q" := Plain(Scalar("2"))]["r" := Plain(Scalar("3"))]];
    UpdateOne(store, 1, "q", "2");
    UpdateOne(one, 1, "r", "3");
    assert one[1 := one[1]["r" := Plain(Scalar("3"))]] == two;
    hide Update, UpdateKey;
    UpdateBelow(store, 0, TWO_DEFAULTS, 0, 1, one);
    UpdateBelow(one, 0, TWO_DEFAULTS, 1, 1, two);
    LoopOfTwo(store, 0, TWO_DEFAULTS, one, two);
  }

  /** At an input: the user has the dict {p: 1} under a and, by an alias, under b; defaults q
      for a and r for b both end up under both. */
  lemma AliasedDict()
    ensures
      var store := map[0 := map["a" := Ref(1), "b" := Ref(1)], 1 := map["p" := Plain(Scalar("1"))]];
      var after := Update(store, Ref(0), TWO_DEFAULTS).0;
      && Walk(after, Ref(0), [Key("a"), Key("r")]) == Some(Plain(Scalar("3")))
      && Walk(after, Ref(0), [Key("b"), Key("q")]) == Some(Plain(Scalar("2")))
  {
    hide Update;
    BothEndThere(map[0 := map["a" := Ref(1), "b" := Ref(1)], 1 := map["p" := Plain(Scalar("1"))]]);
    assert [Key("a"), Key("r")][1..] == [Key("r")] && [Key("b"), Key("q")][1..] == [Key("q")];
  }

  /** The merge of the same values keeps them apart. */
  lemma UnsharedDict()
    ensures
      var one := Object(map["p" := Scalar("1")]);
      Merge(Object(map["a" := one, "b" := one]), Content(TWO_DEFAULTS))
      == Object(map["a" := Object(map["p" := Scalar("1"), "q" := Scalar("2")]),
                    "b" := Object(map["p" := Scalar("1"), "r" := Scalar("3")])])
  {
    var one := Object(map["p" := Scalar("1")]);
    var user := Object(map["a" := one, "b" := one]);
    TwoFields();
    MergeOne("2", "q");
    MergeOne("3", "r");
    assert Merge(user, Content(TWO_DEFAULTS)).fields.Keys == {"a", "b"};
  }

  lemma MergeOne(text: string, key: string)
    requires key != "p"
    ensures Merge(Object(map["p" := Scalar("1")]), Object(map[key := Scalar(text)]))
            == Object(map["p" := Scalar("1"), key := Scalar(text)])
  {
  }

  lemma OneField(key: string, b: Defaults)
    ensures Content(Fields([(key, b)])) == Object(map[key := Content(b)])
  {
    var all := Fields([(key, b)]);
    assert ContentFrom(all, 1) == map[];
    assert ContentFrom(all, 0) == map[key := Content(b)];
  }

  lemma TwoFields()
    ensures Content(TWO_DEFAULTS) == Object(map["a" := Object(map["q" := Scalar("2")]), "b" := Object(map["r" := Scalar("3")])])
  {
    OneField("q", Value(Scalar("2")));
    OneField("r", Value(Scalar("3")));
    assert ContentFrom(TWO_DEFAULTS, 2) == map[];
    assert ContentFrom(TWO_DEFAULTS, 1) == map["b" := Content(TWO_DEFAULTS.fields[1].1)];
  }

  /** At an input: the alias is the item of a list. A default q for a ends up in the list,
      where the merge has the user's own item. */
  lemma AliasedItem()
    ensures
      var store := map[0 := map["a" := Ref(1), "l" := Items([Ref(1)])], 1 := map["p" := Plain(Scalar("1"))]];
      var b := Fields([("a", Fields([("q", Value(Scalar("2")))]))]);
      var one := Object(map["p" := Scalar("1")]);
      && Walk(Update(store, Ref(0), b).0, Ref(0), [Key("l"), Index(0), Key("q")]) == Some(Plain(Scalar("2")))
      && Found(Merge(Object(map["a" := one, "l" := List([one])]), Content(b)), [Key("l")]) == Some(List([one]))
  {
    var store := map[0 := map["a" := Ref(1), "l" := Items([Ref(1)])], 1 := map["p" := Plain(Scalar("1"))]];
    var b := Fields([("a", Fields([("q", Value(Scalar("2")))]))]);
    var one := Object(map["p" := Scalar("1")]);
    var user := Object(map["a" := one, "l" := List([one])]);
    ItemEndsThere(store);
    OneField("a", b.fields[0].1);
    MergedStep(user, Content(b), Key("l"));
    hide Update, Content, Merge;
    assert [Key("l"), Index(0), Key("q")][1..] == [Index(0), Key("q")] && [Index(0), Key("q")][1..] == [Key("q")];
    assert [Key("l")][1..] == [];
  }

  lemma ItemEndsThere(store: Store)
    requires 0 in store && 1 in store && "a" in store[0] && store[0]["a"] == Ref(1) && "q" !in store[1]
    ensures Update(store, Ref(0), Fields([("a", Fields([("q", Value(Scalar("2")))]))])).0
            == store[1 := store[1]["q" := Plain(Scalar("2"))]]
  {
    var b := Fields([("a", Fields([("q", Value(Scalar("2")))]))]);
    var after := store[1 := store[1]["q" := Plain(Scalar("2"))]];
    UpdateOne(store, 1, "q", "2");
    UpdateBelow(store, 0, b, 0, 1, after);
    assert UpdateFrom(after, 0, b, 1) == after;
  }
}
