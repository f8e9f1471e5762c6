/**
 The entity cache of cache/entity_cache.go. `Cache` is the value of the cache and
 `Step` the effect of each mutating operation; the class below performs them in
 place. All of them run under the one mutex, so a run is a sequence of steps.
 */
module EntityCaches {
  import opened Wrappers
  import opened Params
  import opened Labels
  import opened Collections
  import opened OwnerIndex

  datatype EntityItem = EntityItem(entity: ForgeEntity, pools: set<string>, scaleSets: set<nat>)

  datatype Cache = Cache(
    entities: map<string, EntityItem>,
    pools: map<string, Pool>,
    scaleSets: map<nat, ScaleSet>)

  const EMPTY := Cache(map[], map[], map[])

  datatype CacheOp =
    | SetEntity(entity: ForgeEntity)
    | DeleteEntity(e: string)
    | ReplaceEntityPools(e: string, newPools: seq<Pool>)
    | ReplaceEntityScaleSets(e: string, newSets: seq<ScaleSet>)
    | SetEntityPool(e: string, pool: Pool)
    | SetEntityScaleSet(e: string, scaleSet: ScaleSet)
    | DeleteEntityPool(e: string, poolId: string)
    | DeleteEntityScaleSet(e: string, scaleSetId: nat)
    | UpdateCredentials(creds: Credentials)

  function WithCredentials(item: EntityItem, c: Credentials): EntityItem {
    if item.entity.credentials.id == c.id then item.(entity := item.entity.(credentials := c)) else item
  }

  function Step(s: Cache, op: CacheOp): Cache {
    match op
    case SetEntity(x) =>
      var item := if x.id in s.entities then s.entities[x.id].(entity := x) else EntityItem(x, {}, {});
      s.(entities := s.entities[x.id := item])
    case DeleteEntity(e) =>
      if e in s.entities then
        Cache(s.entities - {e}, s.pools - s.entities[e].pools, s.scaleSets - s.entities[e].scaleSets)
      else s
    case ReplaceEntityPools(e, ps) =>
      if e in s.entities then
        var mine := Overlay(ps, e, PoolId, PoolOwner);
        s.(pools := s.pools - s.entities[e].pools + mine,
           entities := s.entities[e := s.entities[e].(pools := mine.Keys)])
      else s
    case ReplaceEntityScaleSets(e, ss) =>
      if e in s.entities then
        var mine := Overlay(ss, e, ScaleSetId, ScaleSetOwner);
        s.(scaleSets := s.scaleSets - s.entities[e].scaleSets + mine,
           entities := s.entities[e := s.entities[e].(scaleSets := mine.Keys)])
      else s
    case SetEntityPool(e, p) =>
      if PoolOwner(p) == Some(e) && e in s.entities then
        s.(pools := s.pools[p.id := p],
           entities := s.entities[e := s.entities[e].(pools := s.entities[e].pools + {p.id})])
      else s
    case SetEntityScaleSet(e, x) =>
      if ScaleSetOwner(x) == Some(e) && e in s.entities then
        s.(scaleSets := s.scaleSets[x.id := x],
           entities := s.entities[e := s.entities[e].(scaleSets := s.entities[e].scaleSets + {x.id})])
      else s
    case DeleteEntityPool(e, k) =>
      s.(pools := s.pools - {k},
         entities := if e in s.entities then
                       s.entities[e := s.entities[e].(pools := s.entities[e].pools - {k})]
                     else s.entities)
    case DeleteEntityScaleSet(e, k) =>
      s.(scaleSets := s.scaleSets - {k},
         entities := if e in s.entities then
                       s.entities[e := s.entities[e].(scaleSets := s.entities[e].scaleSets - {k})]
                     else s.entities)
    case UpdateCredentials(c) =>
      s.(entities := map e | e in s.entities :: WithCredentials(s.entities[e], c))
  }

  function Run(s: Cache, ops: seq<CacheOp>): Cache
    decreases |ops|
  {
    if ops == [] then s else Run(Step(s, ops[0]), ops[1..])
  }

  // ----- The two indexes inside the cache -----

  function PoolLists(items: map<string, EntityItem>): map<string, set<string>> {
    map e | e in items :: items[e].pools
  }

  function ScaleSetLists(items: map<string, EntityItem>): map<string, set<nat>> {
    map e | e in items :: items[e].scaleSets
  }

  /** Updating or removing one entity updates or removes its lists. */
  lemma ListsOfOne(items: map<string, EntityItem>, e: string, item: EntityItem)
    ensures PoolLists(items[e := item]) == PoolLists(items)[e := item.pools]
    ensures ScaleSetLists(items[e := item]) == ScaleSetLists(items)[e := item.scaleSets]
    ensures PoolLists(items - {e}) == PoolLists(items) - {e} && ScaleSetLists(items - {e}) == ScaleSetLists(items) - {e}
    ensures e in items && item.pools == items[e].pools ==> PoolLists(items[e := item]) == PoolLists(items)
    ensures e in items && item.scaleSets == items[e].scaleSets ==> ScaleSetLists(items[e := item]) == ScaleSetLists(items)
  {
  }

  function PoolIndex(s: Cache): Index<string, Pool> {
    Index(s.pools, PoolLists(s.entities))
  }

  function ScaleSetIndex(s: Cache): Index<nat, ScaleSet> {
    Index(s.scaleSets, ScaleSetLists(s.entities))
  }

  function PoolOp(op: CacheOp): Op<string, Pool> {
    match op
    case SetEntity(x) => AddEntity(x.id)
    case DeleteEntity(e) => DropEntity(e)
    case ReplaceEntityPools(e, ps) => Replace(e, ps)
    case SetEntityPool(e, p) => Put(e, p)
    case DeleteEntityPool(e, k) => Remove(e, k)
    case _ => Skip
  }

  function ScaleSetOp(op: CacheOp): Op<nat, ScaleSet> {
    match op
    case SetEntity(x) => AddEntity(x.id)
    case DeleteEntity(e) => DropEntity(e)
    case ReplaceEntityScaleSets(e, ss) => Replace(e, ss)
    case SetEntityScaleSet(e, x) => Put(e, x)
    case DeleteEntityScaleSet(e, k) => Remove(e, k)
    case _ => Skip
  }

  lemma StepOnPoolItems(s: Cache, op: CacheOp)
    ensures Step(s, op).pools == Apply(PoolIndex(s), PoolOp(op), PoolId, PoolOwner).items
  {
  }

  lemma OnlyNamedChanges(s: Cache, op: CacheOp)
    requires !op.SetEntity? && !op.DeleteEntity? && !op.UpdateCredentials? && op.e in s.entities
    ensures op.e in Step(s, op).entities && Step(s, op).entities == s.entities[op.e := Step(s, op).entities[op.e]]
  {
  }

  lemma StepOnPoolList(s: Cache, op: CacheOp)
    requires !op.SetEntity? && !op.DeleteEntity? && !op.UpdateCredentials?
    ensures PoolIndex(Step(s, op)).lists == Apply(PoolIndex(s), PoolOp(op), PoolId, PoolOwner).lists
  {
    if op.e in s.entities {
      OnlyNamedChanges(s, op);
      ListsOfOne(s.entities, op.e, Step(s, op).entities[op.e]);
    }
  }

  lemma StepOnPoolLists(s: Cache, op: CacheOp)
    ensures PoolIndex(Step(s, op)).lists == Apply(PoolIndex(s), PoolOp(op), PoolId, PoolOwner).lists
  {
    match op
    case SetEntity(x) => ListsOfOne(s.entities, x.id, Step(s, op).entities[x.id]);
    case DeleteEntity(e) => if e in s.entities { ListsOfOne(s.entities, e, s.entities[e]); }
    case UpdateCredentials(_) =>
    case _ => StepOnPoolList(s, op);
  }

  lemma StepOnPoolIndex(s: Cache, op: CacheOp)
    ensures PoolIndex(Step(s, op)) == Apply(PoolIndex(s), PoolOp(op), PoolId, PoolOwner)
  {
    StepOnPoolItems(s, op);
    StepOnPoolLists(s, op);
  }

  lemma StepOnScaleSetItems(s: Cache, op: CacheOp)
    ensures Step(s, op).scaleSets == Apply(ScaleSetIndex(s), ScaleSetOp(op), ScaleSetId, ScaleSetOwner).items
  {
  }

  lemma StepOnScaleSetList(s: Cache, op: CacheOp)
    requires !op.SetEntity? && !op.DeleteEntity? && !op.UpdateCredentials?
    ensures ScaleSetIndex(Step(s, op)).lists == Apply(ScaleSetIndex(s), ScaleSetOp(op), ScaleSetId, ScaleSetOwner).lists
  {
    if op.e in s.entities {
      OnlyNamedChanges(s, op);
      ListsOfOne(s.entities, op.e, Step(s, op).entities[op.e]);
    }
  }

  lemma StepOnScaleSetLists(s: Cache, op: CacheOp)
    ensures ScaleSetIndex(Step(s, op)).lists == Apply(ScaleSetIndex(s), ScaleSetOp(op), ScaleSetId, ScaleSetOwner).lists
  {
    match op
    case SetEntity(x) => ListsOfOne(s.entities, x.id, Step(s, op).entities[x.id]);
    case DeleteEntity(e) => if e in s.entities { ListsOfOne(s.entities, e, s.entities[e]); }
    case UpdateCredentials(_) =>
    case _ => StepOnScaleSetList(s, op);
  }

  lemma StepOnScaleSetIndex(s: Cache, op: CacheOp)
    ensures ScaleSetIndex(Step(s, op)) == Apply(ScaleSetIndex(s), ScaleSetOp(op), ScaleSetId, ScaleSetOwner)
  {
    StepOnScaleSetItems(s, op);
    StepOnScaleSetLists(s, op);
  }

  // ----- With no assumption on IDs -----

  ghost predicate Valid(s: Cache) {
    && Sound(PoolIndex(s), PoolId, PoolOwner)
    && Sound(ScaleSetIndex(s), ScaleSetId, ScaleSetOwner)
    && (forall e :: e in s.entities ==> s.entities[e].entity.id == e)
  }

  lemma StepKeepsValid(s: Cache, op: CacheOp)
    requires Valid(s)
    ensures Valid(Step(s, op))
  {
    StepOnPoolIndex(s, op);
    StepOnScaleSetIndex(s, op);
    StepKeepsSound(PoolIndex(s), PoolOp(op), PoolId, PoolOwner);
    StepKeepsSound(ScaleSetIndex(s), ScaleSetOp(op), ScaleSetId, ScaleSetOwner);
  }

  /** In every reachable state each cached pool and scale set sits under its own ID, with its owner cached and listing it. */
  lemma {:induction false} RunKeepsValid(s: Cache, ops: seq<CacheOp>)
    requires Valid(s)
    ensures Valid(Run(s, ops))
    decreases |ops|
  {
    if ops != [] {
      StepKeepsValid(s, ops[0]);
      RunKeepsValid(Step(s, ops[0]), ops[1..]);
    }
  }

  /** After DeleteEntity nothing owned by the entity is cached, so no read can return it. */
  lemma DeleteEntityLeavesNothing(s: Cache, e: string)
    requires Valid(s)
    ensures var s' := Step(s, DeleteEntity(e));
            && e !in s'.entities
            && (forall k :: k in s'.pools ==> PoolOwner(s'.pools[k]) != Some(e))
            && (forall k :: k in s'.scaleSets ==> ScaleSetOwner(s'.scaleSets[k]) != Some(e))
  {
    DropLeavesNothing(PoolIndex(s), e, PoolId, PoolOwner);
    DropLeavesNothing(ScaleSetIndex(s), e, ScaleSetId, ScaleSetOwner);
    StepOnPoolIndex(s, DeleteEntity(e));
    StepOnScaleSetIndex(s, DeleteEntity(e));
  }

  // ----- With stable owners: reads agree with a scan -----

  /** Each pool and scale set ID always arrives with the same owner. */
  ghost predicate StableOwners(op: CacheOp, poolHome: string -> string, scaleSetHome: nat -> string) {
    && HomesItems(PoolOp(op), PoolId, PoolOwner, poolHome)
    && HomesItems(ScaleSetOp(op), ScaleSetId, ScaleSetOwner, scaleSetHome)
  }

  predicate AnyPool(p: Pool) { true }

  predicate AnyScaleSet(x: ScaleSet) { true }

  /** The cached pools listed under e, which is what the list reads visit. */
  function ListedPools(s: Cache, e: string): set<Pool> {
    if e in s.entities then ValuesAt(s.pools, s.entities[e].pools, AnyPool) else {}
  }

  function ListedScaleSets(s: Cache, e: string): set<ScaleSet> {
    if e in s.entities then ValuesAt(s.scaleSets, s.entities[e].scaleSets, AnyScaleSet) else {}
  }

  /** The reference: scan all cached pools for the owner. */
  function PoolsOwnedBy(s: Cache, e: string): set<Pool> {
    set k | k in s.pools && PoolOwner(s.pools[k]) == Some(e) :: s.pools[k]
  }

  function ScaleSetsOwnedBy(s: Cache, e: string): set<ScaleSet> {
    set k | k in s.scaleSets && ScaleSetOwner(s.scaleSets[k]) == Some(e) :: s.scaleSets[k]
  }

  function PoolOps(ops: seq<CacheOp>): seq<Op<string, Pool>> {
    seq(|ops|, i requires 0 <= i < |ops| => PoolOp(ops[i]))
  }

  function ScaleSetOps(ops: seq<CacheOp>): seq<Op<nat, ScaleSet>> {
    seq(|ops|, i requires 0 <= i < |ops| => ScaleSetOp(ops[i]))
  }

  /** After a replacement, the list reads of the entity return exactly its own pools among the new ones, the last one for each ID. */
  lemma ReplacedPoolsAreListed(s: Cache, e: string, ps: seq<Pool>, p: Pool)
    requires e in s.entities
    ensures p in ListedPools(Step(s, ReplaceEntityPools(e, ps)), e) <==>
            exists i :: OffersLast(ps, i, e, p.id, PoolId, PoolOwner) && ps[i] == p
  {
    var (s', m) := (Step(s, ReplaceEntityPools(e, ps)), Overlay(ps, e, PoolId, PoolOwner));
    OverlayBelongs(ps, e, PoolId, PoolOwner);
    OverlayMeaning(ps, e, p.id, PoolId, PoolOwner);
    assert forall k :: k in m ==> k in s'.pools && s'.pools[k] == m[k] && m[k].id == k;
    assert p in ListedPools(s', e) <==> p.id in m && m[p.id] == p;
  }

  lemma ReplacedScaleSetsAreListed(s: Cache, e: string, ss: seq<ScaleSet>, x: ScaleSet)
    requires e in s.entities
    ensures x in ListedScaleSets(Step(s, ReplaceEntityScaleSets(e, ss)), e) <==>
            exists i :: OffersLast(ss, i, e, x.id, ScaleSetId, ScaleSetOwner) && ss[i] == x
  {
    var (s', m) := (Step(s, ReplaceEntityScaleSets(e, ss)), Overlay(ss, e, ScaleSetId, ScaleSetOwner));
    OverlayBelongs(ss, e, ScaleSetId, ScaleSetOwner);
    OverlayMeaning(ss, e, x.id, ScaleSetId, ScaleSetOwner);
    assert forall k :: k in m ==> k in s'.scaleSets && s'.scaleSets[k] == m[k] && m[k].id == k;
    assert x in ListedScaleSets(s', e) <==> x.id in m && m[x.id] == x;
  }

  lemma ListedPoolsIff(s: Cache, e: string, q: Pool)
    requires forall k :: k in s.pools ==> s.pools[k].id == k
    ensures q in ListedPools(s, e) <==>
            e in s.entities && q.id in s.entities[e].pools && q.id in s.pools && s.pools[q.id] == q
  {
  }

  /** Setting a pool of a cached entity makes exactly that one appear, in place of one with its ID. */
  lemma SetPoolsAreListed(s: Cache, e: string, p: Pool, q: Pool)
    requires Valid(s) && e in s.entities && PoolOwner(p) == Some(e)
    ensures q in ListedPools(Step(s, SetEntityPool(e, p)), e) <==> q == p || (q in ListedPools(s, e) && q.id != p.id)
  {
    var s' := Step(s, SetEntityPool(e, p));
    assert forall k :: k in s.pools ==> s.pools[k].id == k;
    ListedPoolsIff(s, e, q);
    ListedPoolsIff(s', e, q);
  }

  /** Deleting a pool, under whichever entity, makes exactly its ID disappear from every entity's reads. */
  lemma DeletedPoolsAreUnlisted(s: Cache, e: string, k: string, f: string, q: Pool)
    requires Valid(s)
    ensures q in ListedPools(Step(s, DeleteEntityPool(e, k)), f) <==> q in ListedPools(s, f) && q.id != k
  {
    var s' := Step(s, DeleteEntityPool(e, k));
    assert forall j :: j in s.pools ==> s.pools[j].id == j;
    ListedPoolsIff(s, f, q);
    ListedPoolsIff(s', f, q);
  }

  lemma ListedScaleSetsIff(s: Cache, e: string, y: ScaleSet)
    requires forall k :: k in s.scaleSets ==> s.scaleSets[k].id == k
    ensures y in ListedScaleSets(s, e) <==>
            e in s.entities && y.id in s.entities[e].scaleSets && y.id in s.scaleSets && s.scaleSets[y.id] == y
  {
  }

  /** Setting a scale set of a cached entity makes exactly that one appear, in place of one with its ID. */
  lemma SetScaleSetsAreListed(s: Cache, e: string, x: ScaleSet, y: ScaleSet)
    requires Valid(s) && e in s.entities && ScaleSetOwner(x) == Some(e)
    ensures y in ListedScaleSets(Step(s, SetEntityScaleSet(e, x)), e) <==> y == x || (y in ListedScaleSets(s, e) && y.id != x.id)
  {
    var s' := Step(s, SetEntityScaleSet(e, x));
    assert forall k :: k in s.scaleSets ==> s.scaleSets[k].id == k;
    ListedScaleSetsIff(s, e, y);
    ListedScaleSetsIff(s', e, y);
  }

  /** Deleting a scale set, under whichever entity, makes exactly its ID disappear from every entity's reads. */
  lemma DeletedScaleSetsAreUnlisted(s: Cache, e: string, k: nat, f: string, y: ScaleSet)
    requires Valid(s)
    ensures y in ListedScaleSets(Step(s, DeleteEntityScaleSet(e, k)), f) <==> y in ListedScaleSets(s, f) && y.id != k
  {
    var s' := Step(s, DeleteEntityScaleSet(e, k));
    assert forall j :: j in s.scaleSets ==> s.scaleSets[j].id == j;
    ListedScaleSetsIff(s, f, y);
    ListedScaleSetsIff(s', f, y);
  }

  lemma {:induction false} RunOnIndexes(s: Cache, ops: seq<CacheOp>)
    ensures PoolIndex(Run(s, ops)) == OwnerIndex.Run(PoolIndex(s), PoolOps(ops), PoolId, PoolOwner)
    ensures ScaleSetIndex(Run(s, ops)) == OwnerIndex.Run(ScaleSetIndex(s), ScaleSetOps(ops), ScaleSetId, ScaleSetOwner)
    decreases |ops|
  {
    if ops != [] {
      StepOnPoolIndex(s, ops[0]);
      StepOnScaleSetIndex(s, ops[0]);
      RunOnIndexes(Step(s, ops[0]), ops[1..]);
      assert PoolOps(ops)[1..] == PoolOps(ops[1..]);
      assert ScaleSetOps(ops)[1..] == ScaleSetOps(ops[1..]);
    }
  }

  lemma IndexesAgree(s: Cache, e: string)
    ensures Owned(s.pools, e, PoolOwner) == (if e in s.entities then s.entities[e].pools * s.pools.Keys else {})
            ==> ListedPools(s, e) == PoolsOwnedBy(s, e)
    ensures Owned(s.scaleSets, e, ScaleSetOwner) == (if e in s.entities then s.entities[e].scaleSets * s.scaleSets.Keys else {})
            ==> ListedScaleSets(s, e) == ScaleSetsOwnedBy(s, e)
  {
    if Owned(s.pools, e, PoolOwner) == if e in s.entities then s.entities[e].pools * s.pools.Keys else {} {
      forall k ensures k in Owned(s.pools, e, PoolOwner) <==> e in s.entities && k in s.entities[e].pools && k in s.pools {}
    }
    if Owned(s.scaleSets, e, ScaleSetOwner) == if e in s.entities then s.entities[e].scaleSets * s.scaleSets.Keys else {} {
      forall k: nat ensures k in Owned(s.scaleSets, e, ScaleSetOwner) <==>
                         e in s.entities && k in s.entities[e].scaleSets && k in s.scaleSets {}
    }
  }

  /**
   If each ID always arrives with the same owner, then after any sequence of cache
   operations, deletions under the wrong entity included, the cache holds exactly the
   items that a plain scanned store would hold, and the items found through an
   entity's list are exactly those it owns.
   */
  lemma ReadsAgreeWithScan(ops: seq<CacheOp>, poolHome: string -> string, scaleSetHome: nat -> string, e: string)
    requires forall i :: 0 <= i < |ops| ==> StableOwners(ops[i], poolHome, scaleSetHome)
    ensures var s := Run(EMPTY, ops);
            && Valid(s)
            && Scan(s.entities.Keys, s.pools) == ScanRun(Scan({}, map[]), PoolOps(ops), PoolId, PoolOwner)
            && Scan(s.entities.Keys, s.scaleSets) == ScanRun(Scan({}, map[]), ScaleSetOps(ops), ScaleSetId, ScaleSetOwner)
            && ListedPools(s, e) == PoolsOwnedBy(s, e)
            && ListedScaleSets(s, e) == ScaleSetsOwnedBy(s, e)
  {
    var s := Run(EMPTY, ops);
    RunKeepsValid(EMPTY, ops);
    RunOnIndexes(EMPTY, ops);
    PoolRunRefines(ops, poolHome, scaleSetHome, e);
    ScaleSetRunRefines(ops, poolHome, scaleSetHome, e);
    IndexesAgree(s, e);
  }

  lemma PoolRunRefines(ops: seq<CacheOp>, poolHome: string -> string, scaleSetHome: nat -> string, e: string)
    requires forall i :: 0 <= i < |ops| ==> StableOwners(ops[i], poolHome, scaleSetHome)
    ensures var x := OwnerIndex.Run(PoolIndex(EMPTY), PoolOps(ops), PoolId, PoolOwner);
            && View(x) == ScanRun(Scan({}, map[]), PoolOps(ops), PoolId, PoolOwner)
            && Owned(x.items, e, PoolOwner) == (if e in x.lists then x.lists[e] * x.items.Keys else {})
  {
    forall i | 0 <= i < |ops| ensures HomesItems(PoolOps(ops)[i], PoolId, PoolOwner, poolHome) {
      assert StableOwners(ops[i], poolHome, scaleSetHome);
    }
    RunRefinesScan(PoolIndex(EMPTY), PoolOps(ops), PoolId, PoolOwner, poolHome);
    assert View(PoolIndex(EMPTY)) == Scan({}, map[]);
    ListedIsOwned(OwnerIndex.Run(PoolIndex(EMPTY), PoolOps(ops), PoolId, PoolOwner), e, PoolId, PoolOwner, poolHome);
  }

  lemma ScaleSetRunRefines(ops: seq<CacheOp>, poolHome: string -> string, scaleSetHome: nat -> string, e: string)
    requires forall i :: 0 <= i < |ops| ==> StableOwners(ops[i], poolHome, scaleSetHome)
    ensures var x := OwnerIndex.Run(ScaleSetIndex(EMPTY), ScaleSetOps(ops), ScaleSetId, ScaleSetOwner);
            && View(x) == ScanRun(Scan({}, map[]), ScaleSetOps(ops), ScaleSetId, ScaleSetOwner)
            && Owned(x.items, e, ScaleSetOwner) == (if e in x.lists then x.lists[e] * x.items.Keys else {})
  {
    forall i | 0 <= i < |ops| ensures HomesItems(ScaleSetOps(ops)[i], ScaleSetId, ScaleSetOwner, scaleSetHome) {
      assert StableOwners(ops[i], poolHome, scaleSetHome);
    }
    RunRefinesScan(ScaleSetIndex(EMPTY), ScaleSetOps(ops), ScaleSetId, ScaleSetOwner, scaleSetHome);
    assert View(ScaleSetIndex(EMPTY)) == Scan({}, map[]);
    ListedIsOwned(OwnerIndex.Run(ScaleSetIndex(EMPTY), ScaleSetOps(ops), ScaleSetId, ScaleSetOwner), e,
      ScaleSetId, ScaleSetOwner, scaleSetHome);
  }

  // ----- The cache object -----

  function PoolCreatedAt(p: Pool): int { p.createdAt }

  function ScaleSetKey(x: ScaleSet): int { x.id }

  class EntityCache {
    var entities: map<string, EntityItem>
    var pools: map<string, Pool>
    var scaleSets: map<nat, ScaleSet>
    const lower: string -> string

    function State(): Cache
      reads this
    {
      Cache(entities, pools, scaleSets)
    }

    constructor (lower: string -> string)
      ensures State() == EMPTY && this.lower == lower
    {
      entities, pools, scaleSets := map[], map[], map[];
      this.lower := lower;
    }

    method SetEntity(entity: ForgeEntity)
      modifies this
      ensures State() == Step(old(State()), CacheOp.SetEntity(entity))
    {
      if entity.id !in entities {
        entities := entities[entity.id := EntityItem(entity, {}, {})];
        return;
      }
      entities := entities[entity.id := entities[entity.id].(entity := entity)];
    }

    /** delete(e.pools, id) for each id, in some order. */
    method ForgetPools(ids: set<string>)
      modifies this`pools
      ensures pools == old(pools) - ids
    {
      var todo := ids;
      while todo != {}
        invariant todo <= ids && pools == old(pools) - (ids - todo)
        decreases |todo|
      {
        var k :| k in todo;
        pools, todo := pools - {k}, todo - {k};
      }
      assert ids - todo == ids;
    }

    method ForgetScaleSets(ids: set<nat>)
      modifies this`scaleSets
      ensures scaleSets == old(scaleSets) - ids
    {
      var todo := ids;
      while todo != {}
        invariant todo <= ids && scaleSets == old(scaleSets) - (ids - todo)
        decreases |todo|
      {
        var k :| k in todo;
        scaleSets, todo := scaleSets - {k}, todo - {k};
      }
      assert ids - todo == ids;
    }

    method ReplaceEntityPools(e: string, newPools: seq<Pool>)
      modifies this
      ensures State() == Step(old(State()), CacheOp.ReplaceEntityPools(e, newPools))
    {
      if e !in entities { return; }
      ForgetPools(entities[e].pools);
      ghost var kept := pools;
      var poolsById: set<string> := {};
      for i := 0 to |newPools|
        invariant entities == old(entities) && scaleSets == old(scaleSets)
        invariant pools == kept + Overlay(newPools[..i], e, PoolId, PoolOwner)
        invariant poolsById == Overlay(newPools[..i], e, PoolId, PoolOwner).Keys
      {
        assert newPools[..i + 1][..i] == newPools[..i];
        var pool := newPools[i];
        if PoolOwner(pool) != Some(e) { continue; }
        pools := pools[pool.id := pool];
        poolsById := poolsById + {pool.id};
      }
      assert newPools[..|newPools|] == newPools;
      entities := entities[e := entities[e].(pools := poolsById)];
    }

    method ReplaceEntityScaleSets(e: string, newSets: seq<ScaleSet>)
      modifies this
      ensures State() == Step(old(State()), CacheOp.ReplaceEntityScaleSets(e, newSets))
    {
      if e !in entities { return; }
      ForgetScaleSets(entities[e].scaleSets);
      ghost var kept := scaleSets;
      var scaleSetsById: set<nat> := {};
      for i := 0 to |newSets|
        invariant entities == old(entities) && pools == old(pools)
        invariant scaleSets == kept + Overlay(newSets[..i], e, ScaleSetId, ScaleSetOwner)
        invariant scaleSetsById == Overlay(newSets[..i], e, ScaleSetId, ScaleSetOwner).Keys
      {
        assert newSets[..i + 1][..i] == newSets[..i];
        var scaleSet := newSets[i];
        if ScaleSetOwner(scaleSet) != Some(e) { continue; }
        scaleSets := scaleSets[scaleSet.id := scaleSet];
        scaleSetsById := scaleSetsById + {scaleSet.id};
      }
      assert newSets[..|newSets|] == newSets;
      entities := entities[e := entities[e].(scaleSets := scaleSetsById)];
    }

    method DeleteEntity(e: string)
      modifies this
      ensures State() == Step(old(State()), CacheOp.DeleteEntity(e))
    {
      if e in entities {
        ForgetPools(entities[e].pools);
        ForgetScaleSets(entities[e].scaleSets);
      }
      entities := entities - {e};
    }

    method SetEntityPool(e: string, pool: Pool)
      modifies this
      ensures State() == Step(old(State()), CacheOp.SetEntityPool(e, pool))
    {
      if PoolOwner(pool) != Some(e) { return; }
      if e in entities {
        pools := pools[pool.id := pool];
        entities := entities[e := entities[e].(pools := entities[e].pools + {pool.id})];
      }
    }

    method SetEntityScaleSet(e: string, scaleSet: ScaleSet)
      modifies this
      ensures State() == Step(old(State()), CacheOp.SetEntityScaleSet(e, scaleSet))
    {
      if ScaleSetOwner(scaleSet) != Some(e) { return; }
      if e in entities {
        scaleSets := scaleSets[scaleSet.id := scaleSet];
        entities := entities[e := entities[e].(scaleSets := entities[e].scaleSets + {scaleSet.id})];
      }
    }

    method DeleteEntityPool(e: string, poolId: string)
      modifies this
      ensures State() == Step(old(State()), CacheOp.DeleteEntityPool(e, poolId))
    {
      if e in entities {
        entities := entities[e := entities[e].(pools := entities[e].pools - {poolId})];
      }
      pools := pools - {poolId};
    }

    method DeleteEntityScaleSet(e: string, scaleSetId: nat)
      modifies this
      ensures State() == Step(old(State()), CacheOp.DeleteEntityScaleSet(e, scaleSetId))
    {
      if e in entities {
        entities := entities[e := entities[e].(scaleSets := entities[e].scaleSets - {scaleSetId})];
      }
      scaleSets := scaleSets - {scaleSetId};
    }

    method UpdateCredentialsInAffectedEntities(creds: Credentials)
      modifies this
      ensures State() == Step(old(State()), UpdateCredentials(creds))
    {
      var todo := entities.Keys;
      while todo != {}
        invariant todo <= entities.Keys == old(entities).Keys
        invariant pools == old(pools) && scaleSets == old(scaleSets)
        invariant forall e :: e in entities ==>
                    entities[e] == if e in todo then old(entities)[e] else WithCredentials(old(entities)[e], creds)
        decreases |todo|
      {
        var e :| e in todo;
        if entities[e].entity.credentials.id == creds.id {
          entities := entities[e := entities[e].(entity := entities[e].entity.(credentials := creds))];
        }
        todo := todo - {e};
      }
    }

    // Reads

    method GetEntityForPool(poolId: string) returns (r: Option<ForgeEntity>)
      requires Valid(State())
      ensures r.Some? <==> poolId in pools
      ensures r.Some? ==> Some(r.value.id) == PoolOwner(pools[poolId]) && r.value == entities[r.value.id].entity
    {
      if poolId !in pools { return None; }
      var owner := PoolOwner(pools[poolId]);
      if owner.None? { return None; }
      if owner.value in entities { return Some(entities[owner.value].entity); }
      return None;
    }

    method GetEntityForScaleSet(scaleSetId: nat) returns (r: Option<ForgeEntity>)
      requires Valid(State())
      ensures r.Some? <==> scaleSetId in scaleSets
      ensures r.Some? ==> Some(r.value.id) == ScaleSetOwner(scaleSets[scaleSetId]) && r.value == entities[r.value.id].entity
    {
      if scaleSetId !in scaleSets { return None; }
      var owner := ScaleSetOwner(scaleSets[scaleSetId]);
      if owner.None? { return None; }
      if owner.value in entities { return Some(entities[owner.value].entity); }
      return None;
    }

    /** Succeeds for exactly the pools the list reads of the same entity return. */
    method GetEntityPool(e: string, poolId: string) returns (r: Option<Pool>)
      requires Valid(State())
      ensures forall p: Pool :: r == Some(p) <==> p.id == poolId && p in ListedPools(State(), e)
    {
      r := None;
      if e in entities {
        if poolId in entities[e].pools {
          if poolId in pools { r := Some(pools[poolId]); }
        }
      }
    }

    method GetEntityScaleSet(e: string, scaleSetId: nat) returns (r: Option<ScaleSet>)
      requires Valid(State())
      ensures forall x: ScaleSet :: r == Some(x) <==> x.id == scaleSetId && x in ListedScaleSets(State(), e)
    {
      r := None;
      if e in entities {
        if scaleSetId in entities[e].scaleSets {
          if scaleSetId in scaleSets { r := Some(scaleSets[scaleSetId]); }
        }
      }
    }

    method GetEntityPools(e: string) returns (r: seq<Pool>)
      requires Valid(State())
      ensures multiset(r) == multiset(ListedPools(State(), e)) && SortedBy(r, PoolCreatedAt)
    {
      if e !in entities { return []; }
      r := Collect(pools, entities[e].pools, AnyPool, PoolId);
      r := SortBy(r, PoolCreatedAt);
    }

    method FindPoolsMatchingAllTags(e: string, tags: seq<string>) returns (r: seq<Pool>)
      requires Valid(State())
      ensures multiset(r) == multiset(set p | p in ListedPools(State(), e) && PoolMatches(lower, p.tags, tags))
      ensures SortedBy(r, PoolCreatedAt)
    {
      if e !in entities { return []; }
      var low := lower;
      var keep := (p: Pool) => PoolMatches(low, p.tags, tags);
      r := Collect(pools, entities[e].pools, keep, PoolId);
      assert ValuesAt(pools, entities[e].pools, keep) ==
             set p | p in ListedPools(State(), e) && PoolMatches(lower, p.tags, tags);
      r := SortBy(r, PoolCreatedAt);
    }

    method GetEntityScaleSets(e: string) returns (r: seq<ScaleSet>)
      requires Valid(State())
      ensures multiset(r) == multiset(ListedScaleSets(State(), e)) && SortedBy(r, ScaleSetKey)
    {
      if e !in entities { return []; }
      r := Collect(scaleSets, entities[e].scaleSets, AnyScaleSet, ScaleSetId);
      r := SortBy(r, ScaleSetKey);
    }
  }
}
