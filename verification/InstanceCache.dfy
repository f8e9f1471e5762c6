/** The instance cache of cache/instance_cache.go and its lookups through the entity cache, in both directions. */
module InstanceCaches {
  import opened Wrappers
  import opened Params
  import opened Collections
  import opened EntityCaches
  import opened CredentialCaches

  type InstanceMap = map<string, Instance>

  function InstanceCreatedAt(i: Instance): int { i.createdAt }

  function InstanceName(i: Instance): string { i.name }

  /** EntityCache.GetEntity */
  function GetEntity(s: Cache, c: Creds, e: string): Option<ForgeEntity> {
    if e in s.entities then Some(WithCached(c, s.entities[e].entity)) else None
  }

  /** GetEntityForInstance */
  function EntityForInstance(s: Cache, c: Creds, m: InstanceMap, name: string): Option<ForgeEntity> {
    if name !in m then None
    else
      var i := m[name];
      var owner :=
        if i.scaleSetId > 0 then
          if i.scaleSetId in s.scaleSets then ScaleSetOwner(s.scaleSets[i.scaleSetId]) else None
        else if i.poolId != "" then
          if i.poolId in s.pools then PoolOwner(s.pools[i.poolId]) else None
        else None;
      if owner.Some? && owner.value != "" then GetEntity(s, c, owner.value) else None
  }

  /** The cached instances of the pools found through e's list. */
  function EntityInstances(s: Cache, m: InstanceMap, e: string): set<Instance> {
    set n | n in m && (exists p :: p in ListedPools(s, e) && p.id == m[n].poolId) :: m[n]
  }

  class InstanceCache {
    var cache: InstanceMap

    ghost predicate Keyed()
      reads this
    {
      forall n :: n in cache ==> cache[n].name == n
    }

    constructor ()
      ensures Keyed() && cache == map[]
    {
      cache := map[];
    }

    method SetInstance(i: Instance)
      requires Keyed()
      modifies this
      ensures Keyed() && cache == old(cache)[i.name := i]
    {
      cache := cache[i.name := i];
    }

    method DeleteInstance(name: string)
      requires Keyed()
      modifies this
      ensures Keyed() && cache == old(cache) - {name}
    {
      cache := cache - {name};
    }

    /** keyedCache.List with a filter, then sorted by creation date. */
    method ListInstances(keep: Instance -> bool) returns (r: seq<Instance>)
      requires Keyed()
      ensures multiset(r) == multiset(set n | n in cache && keep(cache[n]) :: cache[n])
      ensures SortedBy(r, InstanceCreatedAt)
    {
      r := Collect(cache, cache.Keys, keep, InstanceName);
      assert ValuesAt(cache, cache.Keys, keep) == set n | n in cache && keep(cache[n]) :: cache[n];
      r := SortBy(r, InstanceCreatedAt);
    }

    method GetInstancesForPool(poolId: string) returns (r: seq<Instance>)
      requires Keyed()
      ensures multiset(r) == multiset(set n | n in cache && cache[n].poolId == poolId :: cache[n])
      ensures SortedBy(r, InstanceCreatedAt)
    {
      var keep := (i: Instance) => i.poolId == poolId;
      r := ListInstances(keep);
      assert (set n | n in cache && keep(cache[n]) :: cache[n]) == set n | n in cache && cache[n].poolId == poolId :: cache[n];
    }

    method GetEntityInstances(entities: EntityCache, e: string) returns (r: seq<Instance>)
      requires Keyed() && Valid(entities.State())
      ensures multiset(r) == multiset(EntityInstances(entities.State(), cache, e))
      ensures SortedBy(r, InstanceCreatedAt)
    {
      var pools := entities.GetEntityPools(e);
      var poolsAsMap := IdsOf(pools);
      var all := ListInstances(AnyInstance);
      r := KeepPools(all, poolsAsMap);
      ghost var everything := set n | n in cache && AnyInstance(cache[n]) :: cache[n];
      RestrictOfSet(all, everything, poolsAsMap);
      ghost var listed := ListedPools(entities.State(), e);
      forall id ensures id in poolsAsMap <==> exists p :: p in listed && p.id == id {
        ListedIds(pools, listed, id);
      }
      InstancesByIds(entities.State(), cache, e, poolsAsMap);
    }
  }

  lemma InstancesByIds(s: Cache, m: InstanceMap, e: string, ids: set<string>)
    requires forall id :: id in ids <==> exists p :: p in ListedPools(s, e) && p.id == id
    ensures (set i | i in (set n | n in m && AnyInstance(m[n]) :: m[n]) && i.poolId in ids) == EntityInstances(s, m, e)
  {
  }

  predicate AnyInstance(i: Instance) { true }

  lemma ListedIds(pools: seq<Pool>, listed: set<Pool>, id: string)
    requires multiset(pools) == multiset(listed)
    ensures (exists k :: 0 <= k < |pools| && pools[k].id == id) <==> exists p :: p in listed && p.id == id
  {
    if k :| 0 <= k < |pools| && pools[k].id == id {
      assert pools[k] in multiset(listed);
    }
    if p :| p in listed && p.id == id {
      assert p in multiset(pools);
    }
  }

  method IdsOf(pools: seq<Pool>) returns (ids: set<string>)
    ensures forall id :: id in ids <==> exists k :: 0 <= k < |pools| && pools[k].id == id
  {
    ids := {};
    for i := 0 to |pools|
      invariant forall id :: id in ids <==> exists k :: 0 <= k < i && pools[k].id == id
    {
      ids := ids + {pools[i].id};
    }
  }

  /** The instances whose pool is among the IDs, in the order given. */
  method KeepPools(all: seq<Instance>, ids: set<string>) returns (r: seq<Instance>)
    requires SortedBy(all, InstanceCreatedAt)
    ensures multiset(r) == Restrict(all, ids) && SortedBy(r, InstanceCreatedAt)
  {
    r := [];
    for i := 0 to |all|
      invariant multiset(r) == Restrict(all[..i], ids)
      invariant SortedBy(r, InstanceCreatedAt)
      invariant forall j, k :: 0 <= j < |r| && i <= k < |all| ==> InstanceCreatedAt(r[j]) <= InstanceCreatedAt(all[k])
    {
      assert all[..i + 1][..i] == all[..i];
      if all[i].poolId in ids {
        r := r + [all[i]];
      }
    }
    assert all[..|all|] == all;
  }

  /** The instances of the listed pools, with multiplicity. */
  function Restrict(all: seq<Instance>, ids: set<string>): multiset<Instance> {
    if all == [] then multiset{}
    else
      Restrict(all[..|all| - 1], ids)
      + if all[|all| - 1].poolId in ids then multiset{all[|all| - 1]} else multiset{}
  }

  lemma {:induction false} RestrictCounts(all: seq<Instance>, ids: set<string>, i: Instance)
    ensures Restrict(all, ids)[i] == if i.poolId in ids then multiset(all)[i] else 0
  {
    if all != [] {
      RestrictCounts(all[..|all| - 1], ids, i);
      assert all == all[..|all| - 1] + [all[|all| - 1]];
    }
  }

  lemma RestrictOfSet(all: seq<Instance>, s: set<Instance>, ids: set<string>)
    requires multiset(all) == multiset(s)
    ensures Restrict(all, ids) == multiset(set i | i in s && i.poolId in ids)
  {
    forall i ensures Restrict(all, ids)[i] == multiset(set i | i in s && i.poolId in ids)[i] {
      RestrictCounts(all, ids, i);
    }
  }

  /**
   The two directions agree on a pool instance for every entity, except exactly when
   the instance has no pool ID and the entity owns a cached pool whose ID is empty.
   */
  lemma LookupsAgreeIff(s: Cache, c: Creds, m: InstanceMap, e: string, i: Instance)
    requires Valid(s) && ListedPools(s, e) == PoolsOwnedBy(s, e)
    requires i.name in m && m[i.name] == i && i.scaleSetId == 0
    requires forall n :: n in m ==> m[n].name == n
    ensures var forward := i in EntityInstances(s, m, e);
            var found := EntityForInstance(s, c, m, i.name);
            var backward := found.Some? && found.value.id == e;
            (forward <==> backward) <==>
            !(i.poolId == "" && "" in s.pools && PoolOwner(s.pools[""]) == Some(e))
  {
    if i.poolId in s.pools {
      var p := s.pools[i.poolId];
      assert p.id == i.poolId;
      assert PoolOwner(p) == Some(e) <==> p in PoolsOwnedBy(s, e);
    }
    assert i in EntityInstances(s, m, e) <==> exists p :: p in ListedPools(s, e) && p.id == i.poolId;
  }

  /** A scale set instance leads to an entity exactly when its scale set is cached, and then to the owner, whatever its pool ID says. */
  lemma ScaleSetInstanceFindsOwner(s: Cache, c: Creds, m: InstanceMap, name: string)
    requires Valid(s) && name in m && m[name].scaleSetId > 0
    ensures var found, k := EntityForInstance(s, c, m, name), m[name].scaleSetId;
            && (found.Some? <==> k in s.scaleSets)
            && (found.Some? ==> Some(found.value.id) == ScaleSetOwner(s.scaleSets[k]))
  {
    var k := m[name].scaleSetId;
    if k in s.scaleSets {
      assert ScaleSetOwner(s.scaleSets[k]).value in ScaleSetIndex(s).lists;
    }
  }

  /** The entity found for an instance is the cached one with the credential cache's copy of its credentials, if there is one. */
  lemma FoundEntityIsResolved(s: Cache, c: Creds, m: InstanceMap, name: string)
    requires Valid(s) && EntityForInstance(s, c, m, name).Some?
    ensures var found := EntityForInstance(s, c, m, name).value;
            && found.id in s.entities
            && var x := s.entities[found.id].entity;
            && found == x.(credentials := found.credentials)
            && found.credentials == Lookup(c, Ref(x.credentials.forge, x.credentials.id)).GetOr(x.credentials)
  {
  }

  /** With stable owners and no empty pool ID, over any run of the entity cache the two directions always agree. */
  lemma LookupsAgreeInEveryRun(
      ops: seq<CacheOp>, poolHome: string -> string, scaleSetHome: nat -> string,
      c: Creds, m: InstanceMap, e: string, i: Instance)
    requires forall k :: 0 <= k < |ops| ==> StableOwners(ops[k], poolHome, scaleSetHome)
    requires "" !in Run(EMPTY, ops).pools
    requires i.name in m && m[i.name] == i && i.scaleSetId == 0
    requires forall n :: n in m ==> m[n].name == n
    ensures var found := EntityForInstance(Run(EMPTY, ops), c, m, i.name);
            i in EntityInstances(Run(EMPTY, ops), m, e) <==> found.Some? && found.value.id == e
  {
    ReadsAgreeWithScan(ops, poolHome, scaleSetHome, e);
    LookupsAgreeIff(Run(EMPTY, ops), c, m, e, i);
  }
}
