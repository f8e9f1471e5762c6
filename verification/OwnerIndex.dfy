/**
 The two-way index behind cache/entity_cache.go, once for pools and scale sets: a
 global map of items, and for each cached entity the IDs listed under it. `id` and
 `owner` read an item's ID and its owning entity (GetEntity may fail).
 */
module OwnerIndex {
  import opened Wrappers

  type EntityId = string

  datatype Index<K(==), V> = Index(items: map<K, V>, lists: map<EntityId, set<K>>)

  datatype Op<K, V> =
    | AddEntity(e: EntityId)
    | DropEntity(e: EntityId)
    | Put(e: EntityId, v: V)
    | Remove(e: EntityId, k: K)
    | Replace(e: EntityId, vs: seq<V>)
    | Skip

  /** The items among vs that belong to e, by ID; a later one wins. */
  function Overlay<K(==), V>(vs: seq<V>, e: EntityId, id: V -> K, owner: V -> Option<EntityId>): map<K, V> {
    if vs == [] then map[]
    else
      var m := Overlay(vs[..|vs| - 1], e, id, owner);
      var v := vs[|vs| - 1];
      if owner(v) == Some(e) then m[id(v) := v] else m
  }

  function Apply<K(==), V>(x: Index<K, V>, op: Op<K, V>, id: V -> K, owner: V -> Option<EntityId>): Index<K, V> {
    match op
    case AddEntity(e) => if e in x.lists then x else x.(lists := x.lists[e := {}])
    case DropEntity(e) => if e in x.lists then Index(x.items - x.lists[e], x.lists - {e}) else x
    case Put(e, v) =>
      if owner(v) == Some(e) && e in x.lists then
        Index(x.items[id(v) := v], x.lists[e := x.lists[e] + {id(v)}])
      else x
    case Remove(e, k) =>
      Index(x.items - {k}, if e in x.lists then x.lists[e := x.lists[e] - {k}] else x.lists)
    case Replace(e, vs) =>
      if e in x.lists then
        var mine := Overlay(vs, e, id, owner);
        Index(x.items - x.lists[e] + mine, x.lists[e := mine.Keys])
      else x
    case Skip => x
  }

  /** The map holds only items of e from vs, each under its own ID. */
  ghost predicate Belongs<K(!new), V(!new)>(m: map<K, V>, vs: seq<V>, e: EntityId, id: V -> K, owner: V -> Option<EntityId>) {
    forall k :: k in m ==> id(m[k]) == k && owner(m[k]) == Some(e) && m[k] in vs
  }

  lemma {:induction false} OverlayBelongs<K(!new), V(!new)>(vs: seq<V>, e: EntityId, id: V -> K, owner: V -> Option<EntityId>)
    ensures Belongs(Overlay(vs, e, id, owner), vs, e, id, owner)
  {
    if vs != [] {
      OverlayBelongs(vs[..|vs| - 1], e, id, owner);
      assert vs == vs[..|vs| - 1] + [vs[|vs| - 1]];
    }
  }

  /** The i-th element belongs to e and has that ID. */
  predicate Offers<K(==), V>(vs: seq<V>, i: int, e: EntityId, k: K, id: V -> K, owner: V -> Option<EntityId>) {
    0 <= i < |vs| && owner(vs[i]) == Some(e) && id(vs[i]) == k
  }

  /** It is the last such element. */
  ghost predicate OffersLast<K(!new), V(!new)>(vs: seq<V>, i: int, e: EntityId, k: K, id: V -> K, owner: V -> Option<EntityId>) {
    Offers(vs, i, e, k, id, owner) && forall j :: i < j ==> !Offers(vs, j, e, k, id, owner)
  }

  /** The overlay holds exactly the IDs that some element of e has, each with the last such element. */
  lemma {:induction false} OverlayMeaning<K(!new), V(!new)>(vs: seq<V>, e: EntityId, k: K, id: V -> K, owner: V -> Option<EntityId>)
    ensures k in Overlay(vs, e, id, owner) <==> exists i :: Offers(vs, i, e, k, id, owner)
    ensures forall i :: OffersLast(vs, i, e, k, id, owner) ==> k in Overlay(vs, e, id, owner) && Overlay(vs, e, id, owner)[k] == vs[i]
    ensures k in Overlay(vs, e, id, owner) ==> exists i :: OffersLast(vs, i, e, k, id, owner)
  {
    if vs != [] {
      var front, last := vs[..|vs| - 1], |vs| - 1;
      OverlayMeaning(front, e, k, id, owner);
      assert forall i :: i < last ==> (Offers(front, i, e, k, id, owner) <==> Offers(vs, i, e, k, id, owner));
      if Offers(vs, last, e, k, id, owner) {
        assert OffersLast(vs, last, e, k, id, owner);
      } else {
        assert forall i :: OffersLast(front, i, e, k, id, owner) <==> OffersLast(vs, i, e, k, id, owner);
      }
    }
  }

  // ----- With no assumption on IDs -----

  /** Each item is stored under its own ID, and its owner is cached and lists it. */
  ghost predicate Sound<K(!new), V(!new)>(x: Index<K, V>, id: V -> K, owner: V -> Option<EntityId>) {
    forall k :: k in x.items ==>
      && id(x.items[k]) == k
      && owner(x.items[k]).Some?
      && owner(x.items[k]).value in x.lists
      && k in x.lists[owner(x.items[k]).value]
  }

  lemma StepKeepsSound<K(!new), V(!new)>(x: Index<K, V>, op: Op<K, V>, id: V -> K, owner: V -> Option<EntityId>)
    requires Sound(x, id, owner)
    ensures Sound(Apply(x, op, id, owner), id, owner)
  {
    if op.Replace? { OverlayBelongs(op.vs, op.e, id, owner); }
  }

  /** After an entity is dropped, nothing that belongs to it is left anywhere. */
  lemma DropLeavesNothing<K(!new), V(!new)>(x: Index<K, V>, e: EntityId, id: V -> K, owner: V -> Option<EntityId>)
    requires Sound(x, id, owner)
    ensures var x' := Apply(x, DropEntity(e), id, owner);
            e !in x'.lists && forall k :: k in x'.items ==> owner(x'.items[k]) != Some(e)
  {
  }

  // ----- With stable owners: the index refines a scan -----

  /** What the cache should be: a set of entities and a plain map, with owners looked up by scanning. */
  datatype Scan<K(==), V> = Scan(entities: set<EntityId>, items: map<K, V>)

  function Owned<K(==), V(==)>(items: map<K, V>, e: EntityId, owner: V -> Option<EntityId>): set<K> {
    set k | k in items && owner(items[k]) == Some(e)
  }

  function ScanApply<K(==), V(==)>(x: Scan<K, V>, op: Op<K, V>, id: V -> K, owner: V -> Option<EntityId>): Scan<K, V> {
    match op
    case AddEntity(e) => x.(entities := x.entities + {e})
    case DropEntity(e) => Scan(x.entities - {e}, x.items - Owned(x.items, e, owner))
    case Put(e, v) =>
      if owner(v) == Some(e) && e in x.entities then x.(items := x.items[id(v) := v]) else x
    case Remove(_, k) => x.(items := x.items - {k})
    case Replace(e, vs) =>
      if e in x.entities then
        x.(items := x.items - Owned(x.items, e, owner) + Overlay(vs, e, id, owner))
      else x
    case Skip => x
  }

  function View<K(==), V>(x: Index<K, V>): Scan<K, V> {
    Scan(x.lists.Keys, x.items)
  }

  /** IDs are only ever listed under their home. */
  ghost predicate Tidy<K(!new), V(!new)>(x: Index<K, V>, home: K -> EntityId) {
    forall e, k :: e in x.lists && k in x.lists[e] ==> home(k) == e
  }

  /** The operation brings items to their home only: an ID always arrives with the same owner. */
  ghost predicate HomesItems<K(!new), V(!new)>(op: Op<K, V>, id: V -> K, owner: V -> Option<EntityId>, home: K -> EntityId) {
    match op
    case Put(e, v) => owner(v) == Some(e) ==> home(id(v)) == e
    case Replace(e, vs) => forall v <- vs :: owner(v) == Some(e) ==> home(id(v)) == e
    case _ => true
  }

  lemma StepKeepsTidy<K(!new), V(!new)>(x: Index<K, V>, op: Op<K, V>, id: V -> K, owner: V -> Option<EntityId>, home: K -> EntityId)
    requires Tidy(x, home) && HomesItems(op, id, owner, home)
    ensures Tidy(Apply(x, op, id, owner), home)
  {
    var x' := Apply(x, op, id, owner);
    if op.Replace? { OverlayBelongs(op.vs, op.e, id, owner); }
    forall e, k | e in x'.lists && k in x'.lists[e] ensures home(k) == e {
      if op.Replace? && e == op.e && e in x.lists {
        var m := Overlay(op.vs, e, id, owner);
        assert k in m && m[k] in op.vs;
      }
    }
  }

  /** The listed and cached items of an entity are exactly the cached items it owns. */
  lemma ListedIsOwned<K(!new), V(!new)>(x: Index<K, V>, e: EntityId, id: V -> K, owner: V -> Option<EntityId>, home: K -> EntityId)
    requires Sound(x, id, owner) && Tidy(x, home)
    ensures Owned(x.items, e, owner) == if e in x.lists then x.lists[e] * x.items.Keys else {}
  {
    forall k | k in x.items
      ensures owner(x.items[k]) == Some(e) <==> e in x.lists && k in x.lists[e]
    {
      assert home(k) == owner(x.items[k]).value;
      if e in x.lists && k in x.lists[e] { assert home(k) == e; }
    }
  }

  lemma StepRefinesScan<K(!new), V(!new)>(x: Index<K, V>, op: Op<K, V>, id: V -> K, owner: V -> Option<EntityId>, home: K -> EntityId)
    requires Sound(x, id, owner) && Tidy(x, home) && HomesItems(op, id, owner, home)
    ensures View(Apply(x, op, id, owner)) == ScanApply(View(x), op, id, owner)
  {
    if op.DropEntity? || op.Replace? {
      ListedIsOwned(x, op.e, id, owner, home);
    }
  }

  /** Everything listed under an entity and cached belongs to it. */
  ghost predicate Accurate<K(!new), V(!new)>(x: Index<K, V>, owner: V -> Option<EntityId>) {
    forall e, k :: e in x.lists && k in x.lists[e] && k in x.items ==> owner(x.items[k]) == Some(e)
  }

  /** The IDs that an operation stores and lists under its entity. */
  function Arrivals<K(==), V>(x: Index<K, V>, op: Op<K, V>, id: V -> K, owner: V -> Option<EntityId>): set<K> {
    match op
    case Put(e, v) => if owner(v) == Some(e) && e in x.lists then {id(v)} else {}
    case Replace(e, vs) => if e in x.lists then Overlay(vs, e, id, owner).Keys else {}
    case _ => {}
  }

  /** Why owners have to be stable: an operation keeps the lists accurate exactly when no other entity lists an ID that it stores. */
  lemma StepKeepsAccurateIff<K(!new), V(!new)>(x: Index<K, V>, op: Op<K, V>, id: V -> K, owner: V -> Option<EntityId>)
    requires Accurate(x, owner)
    ensures Accurate(Apply(x, op, id, owner), owner) <==>
              forall d, k :: d in x.lists && k in x.lists[d] && k in Arrivals(x, op, id, owner) ==> d == op.e
  {
    if d, k :| d in x.lists && k in x.lists[d] && k in Arrivals(x, op, id, owner) && d != op.e {
      StrayArrivalIsInaccurate(x, op, d, k, id, owner);
    } else {
      var x', arrivals := Apply(x, op, id, owner), Arrivals(x, op, id, owner);
      if op.Replace? { OverlayBelongs(op.vs, op.e, id, owner); }
      forall d, k | d in x'.lists && k in x'.lists[d] && k in x'.items ensures owner(x'.items[k]) == Some(d) {
        if k in arrivals {
          assert owner(x'.items[k]) == Some(op.e);
          assert d == op.e;
        } else {
          assert d in x.lists && k in x.lists[d] && k in x.items && x'.items[k] == x.items[k];
        }
      }
    }
  }

  lemma StrayArrivalIsInaccurate<K(!new), V(!new)>(x: Index<K, V>, op: Op<K, V>, d: EntityId, k: K, id: V -> K, owner: V -> Option<EntityId>)
    requires d in x.lists && k in x.lists[d] && k in Arrivals(x, op, id, owner) && d != op.e
    ensures !Accurate(Apply(x, op, id, owner), owner)
  {
    var x' := Apply(x, op, id, owner);
    if op.Replace? { OverlayBelongs(op.vs, op.e, id, owner); }
    assert d in x'.lists && k in x'.lists[d] && k in x'.items && owner(x'.items[k]) == Some(op.e);
  }

  function Run<K(==), V>(x: Index<K, V>, ops: seq<Op<K, V>>, id: V -> K, owner: V -> Option<EntityId>): Index<K, V>
    decreases |ops|
  {
    if ops == [] then x else Run(Apply(x, ops[0], id, owner), ops[1..], id, owner)
  }

  function ScanRun<K(==), V(==)>(x: Scan<K, V>, ops: seq<Op<K, V>>, id: V -> K, owner: V -> Option<EntityId>): Scan<K, V>
    decreases |ops|
  {
    if ops == [] then x else ScanRun(ScanApply(x, ops[0], id, owner), ops[1..], id, owner)
  }

  lemma {:induction false} RunKeepsSound<K(!new), V(!new)>(x: Index<K, V>, ops: seq<Op<K, V>>, id: V -> K, owner: V -> Option<EntityId>)
    requires Sound(x, id, owner)
    ensures Sound(Run(x, ops, id, owner), id, owner)
    decreases |ops|
  {
    if ops != [] {
      StepKeepsSound(x, ops[0], id, owner);
      RunKeepsSound(Apply(x, ops[0], id, owner), ops[1..], id, owner);
    }
  }

  /** Over any sequence of operations, the index and the scan hold the same entities and items, and agree on who owns what. */
  lemma {:induction false} RunRefinesScan<K(!new), V(!new)>(
      x: Index<K, V>, ops: seq<Op<K, V>>, id: V -> K, owner: V -> Option<EntityId>, home: K -> EntityId)
    requires Sound(x, id, owner) && Tidy(x, home)
    requires forall i :: 0 <= i < |ops| ==> HomesItems(ops[i], id, owner, home)
    ensures var x' := Run(x, ops, id, owner);
            && Sound(x', id, owner) && Tidy(x', home)
            && View(x') == ScanRun(View(x), ops, id, owner)
            && (forall e <- x'.lists :: x'.lists[e] * x'.items.Keys == Owned(x'.items, e, owner))
    decreases |ops|
  {
    if ops == [] {
      forall e | e in x.lists ensures x.lists[e] * x.items.Keys == Owned(x.items, e, owner) {
        ListedIsOwned(x, e, id, owner, home);
      }
    } else {
      StepKeepsSound(x, ops[0], id, owner);
      StepKeepsTidy(x, ops[0], id, owner, home);
      StepRefinesScan(x, ops[0], id, owner, home);
      RunRefinesScan(Apply(x, ops[0], id, owner), ops[1..], id, owner, home);
    }
  }
}
