/**
 The pool manager supervisor of runner/runner.go and runner/forge_instances.go: the
 functions that run under Runner.mux and load, create, start, fail, back off, retry
 and clean up pool managers for the four kinds of entities.

 Every call into the store, a pool manager or the backoff may succeed or fail at
 any time: `Env` gives the answer of the call with a given number, and all results
 hold for every Env.
 */
module Supervisor {
  import opened Wrappers

  type Id = string

  datatype Kind = Repository | Organization | Enterprise | ForgeInstance

  const KINDS := [Repository, Organization, Enterprise, ForgeInstance]

  datatype Answer = Found | NotFound | Unavailable

  datatype Env = Env(
    list: (nat, Kind) -> Option<seq<Id>>,   // store.List*: None is an error
    get: (nat, Id) -> Answer,               // store.Get*ByID
    create: (nat, Id) -> bool,              // pool.NewEntityPoolManager
    start: (nat, Id) -> bool,               // PoolManager.Start
    stop: (nat, Id) -> bool,                // PoolManager.Stop
    due: (nat, Id) -> bool)                 // backoff.ShouldRetry

  type Entity = (Kind, Id)

  /**
   `managers` holds the registered managers (the four maps of poolManagerCtrl) with
   whether each was started, `failed` is failedEntities and `loaded` the four flags.
   The rest is history: `calls` counts the calls made, `live` holds an entity once
   for each started and unstopped manager, registered or not, `listed` collects what
   successful list calls returned and `gone` what the store reported as not found.
   */
  datatype State = State(
    managers: map<Entity, bool>,
    failed: map<Id, Kind>,
    loaded: set<Kind>,
    calls: nat,
    live: multiset<Entity>,
    listed: set<Entity>,
    gone: set<Id>)

  const INITIAL := State(map[], map[], {}, 0, multiset{}, {}, {})

  // ----- What the functions do -----

  /** One call into the outside world has been made. */
  function Tick(s: State): State {
    s.(calls := s.calls + 1)
  }

  /** Delete*PoolManager: a no-op without a manager; a failing Stop leaves everything in place. */
  function DeleteManager(env: Env, s: State, x: Entity): (State, bool) {
    if x !in s.managers then (s, true)
    else if env.stop(s.calls, x.1) then
      (s.(managers := s.managers - {x}, calls := s.calls + 1,
          live := if s.managers[x] then s.live - multiset{x} else s.live), true)
    else (s.(calls := s.calls + 1), false)
  }

  function Fail(s: State, x: Entity): State {
    s.(failed := s.failed[x.1 := x.0])
  }

  /** The new manager is registered, over whatever was there before, and asked to start. */
  function Registered(s: State, x: Entity): State {
    s.(managers := s.managers[x := false], calls := s.calls + 2)
  }

  function Started(s: State, x: Entity): State {
    s.(managers := s.managers[x := true], live := s.live + multiset{x}, failed := s.failed - {x.1})
  }

  /** createAndStart*PoolManager */
  function CreateAndStart(env: Env, s: State, x: Entity): State {
    if !env.create(s.calls, x.1) then Fail(Tick(s), x)
    else if env.start(s.calls + 1, x.1) then Started(Registered(s, x), x)
    else Fail(DeleteManager(env, Registered(s, x), x).0, x)
  }

  function Forget(s: State, x: Entity): State {
    s.(failed := s.failed - {x.1}, gone := s.gone + {x.1})
  }

  /** retryFailedEntity */
  function Retry(env: Env, s: State, x: Entity): State {
    var s1 := Tick(s);
    match env.get(s.calls, x.1)
    case NotFound => Forget(s1, x)
    case Unavailable => s1
    case Found => Recreate(env, s1, x)
  }

  /** Clean up a stale manager, then create and start anew. */
  function Recreate(env: Env, s: State, x: Entity): State {
    var (t, ok) := DeleteManager(env, s, x);
    if ok then CreateAndStart(env, t, x) else t
  }

  /** Create a manager for each listed entity; a repeated listing skips those that have one. */
  function CreateAll(env: Env, s: State, k: Kind, ids: seq<Id>, skip: bool): State
    decreases |ids|
  {
    if ids == [] then s
    else if skip && (k, ids[0]) in s.managers then CreateAll(env, s, k, ids[1..], skip)
    else CreateAll(env, CreateAndStart(env, s, (k, ids[0])), k, ids[1..], skip)
  }

  function Entities(k: Kind, ids: seq<Id>): set<Entity> {
    set id | id in ids :: (k, id)
  }

  function MarkLoaded(s: State, k: Kind, ids: seq<Id>): State {
    s.(loaded := s.loaded + {k}, listed := s.listed + Entities(k, ids))
  }

  /** List one kind and, if that works, load it. */
  function LoadKind(env: Env, s: State, k: Kind, skip: bool): State {
    var s1 := Tick(s);
    match env.list(s.calls, k)
    case None => s1
    case Some(ids) => CreateAll(env, MarkLoaded(s1, k, ids), k, ids, skip)
  }

  /** loadReposOrgsAndEnterprises, and the listing part of retryFailedPoolManagers with its guard. */
  function LoadKinds(env: Env, s: State, ks: seq<Kind>, retry: bool): State
    decreases |ks|
  {
    if ks == [] then s
    else LoadKinds(env, if retry && ks[0] in s.loaded then s else LoadKind(env, s, ks[0], retry), ks[1..], retry)
  }

  /** The body of the range over failedEntities; an entry that is gone by then is not visited. */
  function RetryOne(env: Env, s: State, id: Id): State {
    if id !in s.failed then s
    else
      var s1 := Tick(s);
      if env.due(s.calls, id) then Retry(env, s1, (s.failed[id], id)) else s1
  }

  /** The range over failedEntities, in the order given. */
  function RetryAll(env: Env, s: State, order: seq<Id>): State
    decreases |order|
  {
    if order == [] then s else RetryAll(env, RetryOne(env, s, order[0]), order[1..])
  }

  /** One round of retryFailedPoolManagers on a running Runner. */
  function Round(env: Env, s: State, order: seq<Id>): State {
    RetryAll(env, LoadKinds(env, s, KINDS, true), order)
  }

  /** NewRunner followed by any number of retry rounds, each visiting failedEntities in some order. */
  function Run(env: Env, orders: seq<seq<Id>>): State {
    if orders == [] then LoadKinds(env, INITIAL, KINDS, false)
    else Round(env, Run(env, orders[..|orders| - 1]), orders[|orders| - 1])
  }

  // ----- The invariant, one entity at a time -----

  predicate Running(s: State, x: Entity) {
    x in s.managers && s.managers[x]
  }

  /** The entity is looked after: its registered manager was started, or it awaits a retry, or the store no longer has it. */
  predicate Covered(s: State, x: Entity) {
    Running(s, x) || x.1 in s.failed || x.1 in s.gone
  }

  /** At most one manager runs for the entity, and it is the registered one. */
  predicate Exclusive(s: State, x: Entity) {
    s.live[x] == if Running(s, x) then 1 else 0
  }

  /** `kindOf` gives the one kind each ID belongs to; `pending` are listed entities not reached yet. */
  ghost predicate Good(s: State, kindOf: Id -> Kind, pending: set<Entity>, x: Entity) {
    && Exclusive(s, x)
    && (x in s.managers ==> x in s.listed && Covered(s, x))
    && (x in s.listed ==> kindOf(x.1) == x.0 && x.0 in s.loaded)
    && (x in s.listed && x !in pending ==> Covered(s, x))
    && (x.1 in s.failed && kindOf(x.1) == x.0 ==> s.failed[x.1] == x.0 && x in s.listed && !Running(s, x))
  }

  ghost predicate AllGood(s: State, kindOf: Id -> Kind, pending: set<Entity>) {
    forall x: Entity :: Good(s, kindOf, pending, x)
  }

  predicate SameManager(s: State, t: State, y: Entity) {
    && (y in s.managers <==> y in t.managers)
    && (y in s.managers && y in t.managers ==> s.managers[y] == t.managers[y])
    && s.live[y] == t.live[y]
  }

  predicate SameEntry(s: State, t: State, id: Id) {
    && (id in s.failed <==> id in t.failed)
    && (id in s.failed && id in t.failed ==> s.failed[id] == t.failed[id])
    && (id in s.gone <==> id in t.gone)
  }

  /** What an operation on `x` may change: other managers, other IDs and the listings stay. */
  ghost predicate Touches(s: State, t: State, x: Entity) {
    && s.listed == t.listed && s.loaded == t.loaded && s.calls <= t.calls
    && (forall y: Entity :: y != x ==> SameManager(s, t, y))
    && (forall id: Id :: id != x.1 ==> SameEntry(s, t, id))
  }

  lemma DeleteTouches(env: Env, s: State, x: Entity)
    ensures Touches(s, DeleteManager(env, s, x).0, x)
  {
    var t := DeleteManager(env, s, x).0;
    forall y: Entity | y != x ensures SameManager(s, t, y) {
    }
    forall id: Id ensures SameEntry(s, t, id) {
    }
  }

  lemma CreateAndStartTouches(env: Env, s: State, x: Entity)
    ensures Touches(s, CreateAndStart(env, s, x), x)
  {
  }

  lemma TouchesTwice(s: State, t: State, u: State, x: Entity)
    requires Touches(s, t, x) && Touches(t, u, x)
    ensures Touches(s, u, x)
  {
    forall y: Entity | y != x ensures SameManager(s, u, y) {
      assert SameManager(s, t, y) && SameManager(t, u, y);
    }
    forall id: Id | id != x.1 ensures SameEntry(s, u, id) {
      assert SameEntry(s, t, id) && SameEntry(t, u, id);
    }
  }

  lemma RecreateTouches(env: Env, s: State, x: Entity)
    ensures Touches(s, Recreate(env, s, x), x)
  {
    var t := DeleteManager(env, s, x).0;
    DeleteTouches(env, s, x);
    CreateAndStartTouches(env, t, x);
    TouchesTwice(s, t, CreateAndStart(env, t, x), x);
  }

  lemma TickTouches(s: State, x: Entity)
    ensures Touches(s, Tick(s), x)
  {
  }

  lemma ForgetTouches(s: State, x: Entity)
    ensures Touches(s, Forget(s, x), x)
  {
  }

  lemma RetryTouches(env: Env, s: State, x: Entity)
    ensures Touches(s, Retry(env, s, x), x)
  {
    var s1 := Tick(s);
    TickTouches(s, x);
    match env.get(s.calls, x.1)
    case NotFound =>
      ForgetTouches(s1, x);
      TouchesTwice(s, s1, Forget(s1, x), x);
    case Unavailable =>
    case Found =>
      RecreateTouches(env, s1, x);
      TouchesTwice(s, s1, Recreate(env, s1, x), x);
  }

  /** An operation on `x` that leaves `x` in good order leaves everything in good order. */
  lemma OneAtATime(s: State, t: State, x: Entity, kindOf: Id -> Kind, pending: set<Entity>)
    requires AllGood(s, kindOf, pending) && Touches(s, t, x) && kindOf(x.1) == x.0
    requires Good(t, kindOf, pending - {x}, x)
    ensures AllGood(t, kindOf, pending - {x})
  {
    forall y: Entity ensures Good(t, kindOf, pending - {x}, y) {
      if y != x {
        assert Good(s, kindOf, pending, y);
        assert SameManager(s, t, y);
        assert y.1 != x.1 ==> SameEntry(s, t, y.1);
      }
    }
  }

  lemma CreateAndStartKeepsGood(env: Env, s: State, x: Entity, kindOf: Id -> Kind, pending: set<Entity>)
    requires AllGood(s, kindOf, pending) && x in s.listed && x !in s.managers
    ensures AllGood(CreateAndStart(env, s, x), kindOf, pending - {x})
  {
    CreateAndStartTouches(env, s, x);
    assert Good(s, kindOf, pending, x);
    OneAtATime(s, CreateAndStart(env, s, x), x, kindOf, pending);
  }

  lemma RetryLeavesGood(env: Env, s: State, x: Entity, kindOf: Id -> Kind)
    requires Good(s, kindOf, {}, x) && x in s.listed && x.1 in s.failed
    ensures Good(Retry(env, s, x), kindOf, {}, x)
  {
  }

  lemma RetryKeepsGood(env: Env, s: State, id: Id, kindOf: Id -> Kind)
    requires AllGood(s, kindOf, {})
    ensures AllGood(RetryOne(env, s, id), kindOf, {}) && RetryOne(env, s, id).loaded == s.loaded
  {
    if id in s.failed {
      var x := (kindOf(id), id);
      assert Good(s, kindOf, {}, x);
      var s1 := Tick(s);
      forall y: Entity ensures Good(s1, kindOf, {}, y) {
        assert Good(s, kindOf, {}, y);
      }
      if env.due(s.calls, id) {
        RetryTouches(env, s1, x);
        RetryLeavesGood(env, s1, x, kindOf);
        OneAtATime(s1, Retry(env, s1, x), x, kindOf, {});
        assert {} - {x} == {};
      }
    }
  }

  lemma {:induction false} RetryAllKeepsGood(env: Env, s: State, order: seq<Id>, kindOf: Id -> Kind)
    requires AllGood(s, kindOf, {})
    ensures AllGood(RetryAll(env, s, order), kindOf, {}) && RetryAll(env, s, order).loaded == s.loaded
    decreases |order|
  {
    if order != [] {
      RetryKeepsGood(env, s, order[0], kindOf);
      RetryAllKeepsGood(env, RetryOne(env, s, order[0]), order[1..], kindOf);
    }
  }

  // ----- Loading -----

  predicate NoDuplicates<T(==)>(q: seq<T>) {
    forall i, j :: 0 <= i < j < |q| ==> q[i] != q[j]
  }

  /** Creating from a listing reaches every pending entity; only a first listing needs distinct, unregistered IDs. */
  lemma {:induction false} CreateAllKeepsGood(env: Env, s: State, k: Kind, ids: seq<Id>, skip: bool, kindOf: Id -> Kind)
    requires AllGood(s, kindOf, Entities(k, ids)) && Entities(k, ids) <= s.listed
    requires skip || (NoDuplicates(ids) && forall id :: id in ids ==> (k, id) !in s.managers)
    ensures AllGood(CreateAll(env, s, k, ids, skip), kindOf, {})
    ensures CreateAll(env, s, k, ids, skip).loaded == s.loaded
    ensures CreateAll(env, s, k, ids, skip).listed == s.listed
    decreases |ids|
  {
    if ids == [] {
      assert Entities(k, ids) == {};
    } else {
      var x, rest := (k, ids[0]), ids[1..];
      assert ids == [ids[0]] + rest;
      assert Entities(k, ids) == Entities(k, rest) + {x};
      var pending := Entities(k, ids);
      if skip && x in s.managers {
        forall y: Entity ensures Good(s, kindOf, Entities(k, rest), y) {
          assert Good(s, kindOf, pending, y);
        }
        CreateAllKeepsGood(env, s, k, rest, skip, kindOf);
      } else {
        CreateAndStartKeepsGood(env, s, x, kindOf, pending);
        CreateAndStartTouches(env, s, x);
        var t := CreateAndStart(env, s, x);
        forall y: Entity ensures Good(t, kindOf, Entities(k, rest), y) {
          assert Good(t, kindOf, pending - {x}, y);
        }
        if !skip {
          forall id | id in rest ensures (k, id) !in t.managers {
            assert SameManager(s, t, (k, id));
          }
        }
        CreateAllKeepsGood(env, t, k, rest, skip, kindOf);
      }
    }
  }

  lemma MarkLoadedKeepsGood(s: State, k: Kind, ids: seq<Id>, kindOf: Id -> Kind)
    requires AllGood(s, kindOf, {}) && k !in s.loaded && OfKind(ids, k, kindOf)
    ensures AllGood(MarkLoaded(s, k, ids), kindOf, Entities(k, ids))
    ensures forall id :: (k, id) !in s.managers
  {
    forall x: Entity ensures Good(MarkLoaded(s, k, ids), kindOf, Entities(k, ids), x) {
      assert Good(s, kindOf, {}, x);
    }
    forall id ensures (k, id) !in s.managers {
      assert Good(s, kindOf, {}, (k, id));
    }
  }

  predicate OfKind(ids: seq<Id>, k: Kind, kindOf: Id -> Kind) {
    forall id :: id in ids ==> kindOf(id) == k
  }

  /** No ID is shared between kinds. */
  ghost predicate Typed(env: Env, kindOf: Id -> Kind) {
    forall n: nat, k :: env.list(n, k).Some? ==> OfKind(env.list(n, k).value, k, kindOf)
  }

  /** Listings before that call name no ID twice. */
  ghost predicate Distinct(env: Env, before: nat) {
    forall n: nat, k :: n < before && env.list(n, k).Some? ==> NoDuplicates(env.list(n, k).value)
  }

  /** Listings come from tables with primary keys. Only those of the first load need to name no ID twice. */
  ghost predicate Honest(env: Env, kindOf: Id -> Kind) {
    Typed(env, kindOf) && Distinct(env, LoadKinds(env, INITIAL, KINDS, false).calls)
  }

  /** Working through a listing changes neither what is loaded, listed and gone. */
  lemma {:induction false} CreateAllFrame(env: Env, s: State, k: Kind, ids: seq<Id>, skip: bool)
    ensures var t := CreateAll(env, s, k, ids, skip);
            t.loaded == s.loaded && t.listed == s.listed && t.gone == s.gone && t.calls >= s.calls
    decreases |ids|
  {
    if ids != [] {
      if skip && (k, ids[0]) in s.managers {
        CreateAllFrame(env, s, k, ids[1..], skip);
      } else {
        CreateAllFrame(env, CreateAndStart(env, s, (k, ids[0])), k, ids[1..], skip);
      }
    }
  }

  /** A kind becomes loaded exactly when its listing succeeds, which records the listed entities; a failed listing changes nothing but the call count. */
  lemma LoadKindOutcome(env: Env, s: State, k: Kind, skip: bool)
    ensures var (answer, t) := (env.list(s.calls, k), LoadKind(env, s, k, skip));
            && (answer.None? ==> t == s.(calls := s.calls + 1))
            && (answer.Some? ==> t.loaded == s.loaded + {k} && t.listed == s.listed + set id | id in answer.value :: (k, id))
            && (k !in s.loaded ==> (k in t.loaded <==> answer.Some?))
            && t.calls > s.calls && t.gone == s.gone
  {
    if env.list(s.calls, k).Some? {
      var ids := env.list(s.calls, k).value;
      CreateAllFrame(env, MarkLoaded(Tick(s), k, ids), k, ids, skip);
    }
  }

  lemma {:induction false} CallsGrow(env: Env, s: State, ks: seq<Kind>, retry: bool)
    ensures LoadKinds(env, s, ks, retry).calls >= s.calls
    decreases |ks|
  {
    if ks != [] {
      LoadKindOutcome(env, s, ks[0], retry);
      CallsGrow(env, if retry && ks[0] in s.loaded then s else LoadKind(env, s, ks[0], retry), ks[1..], retry);
    }
  }

  lemma TickKeepsGood(s: State, kindOf: Id -> Kind)
    requires AllGood(s, kindOf, {})
    ensures AllGood(Tick(s), kindOf, {})
  {
    forall x: Entity ensures Good(Tick(s), kindOf, {}, x) {
      assert Good(s, kindOf, {}, x);
    }
  }

  lemma LoadKindKeepsGood(env: Env, s: State, k: Kind, skip: bool, kindOf: Id -> Kind)
    requires AllGood(s, kindOf, {}) && Typed(env, kindOf) && k !in s.loaded
    requires skip || Distinct(env, s.calls + 1)
    ensures AllGood(LoadKind(env, s, k, skip), kindOf, {})
  {
    TickKeepsGood(s, kindOf);
    if env.list(s.calls, k).Some? {
      var ids := env.list(s.calls, k).value;
      MarkLoadedKeepsGood(Tick(s), k, ids, kindOf);
      CreateAllKeepsGood(env, MarkLoaded(Tick(s), k, ids), k, ids, skip, kindOf);
    }
  }

  lemma {:induction false} LoadKindsKeepsGood(env: Env, s: State, ks: seq<Kind>, retry: bool, kindOf: Id -> Kind)
    requires AllGood(s, kindOf, {}) && Typed(env, kindOf)
    requires retry || (Distinct(env, LoadKinds(env, s, ks, retry).calls) && NoDuplicates(ks) && forall k :: k in ks ==> k !in s.loaded)
    ensures AllGood(LoadKinds(env, s, ks, retry), kindOf, {})
    decreases |ks|
  {
    if ks != [] {
      if !(retry && ks[0] in s.loaded) {
        var t := LoadKind(env, s, ks[0], retry);
        LoadKindOutcome(env, s, ks[0], retry);
        CallsGrow(env, t, ks[1..], retry);
        LoadKindKeepsGood(env, s, ks[0], retry, kindOf);
        LoadKindsKeepsGood(env, t, ks[1..], retry, kindOf);
      } else {
        LoadKindsKeepsGood(env, s, ks[1..], retry, kindOf);
      }
    }
  }

  lemma {:induction false} EveryRunIsGood(env: Env, orders: seq<seq<Id>>, kindOf: Id -> Kind)
    requires Honest(env, kindOf)
    ensures AllGood(Run(env, orders), kindOf, {})
    decreases |orders|
  {
    if orders == [] {
      assert AllGood(INITIAL, kindOf, {});
      LoadKindsKeepsGood(env, INITIAL, KINDS, false, kindOf);
    } else {
      var s := Run(env, orders[..|orders| - 1]);
      EveryRunIsGood(env, orders[..|orders| - 1], kindOf);
      LoadKindsKeepsGood(env, s, KINDS, true, kindOf);
      RetryAllKeepsGood(env, LoadKinds(env, s, KINDS, true), orders[|orders| - 1], kindOf);
    }
  }

  /**
   Coverage: whatever the store, the managers and the backoff answer, after any number
   of rounds every entity that was ever listed has a registered, started manager,
   or awaits a retry, or was reported as not found.
   */
  lemma EveryListedEntityIsCovered(env: Env, orders: seq<seq<Id>>, kindOf: Id -> Kind, x: Entity)
    requires Honest(env, kindOf) && x in Run(env, orders).listed
    ensures var s := Run(env, orders);
            (x in s.managers && s.managers[x]) || (x.1 in s.failed && s.failed[x.1] == x.0) || x.1 in s.gone
  {
    EveryRunIsGood(env, orders, kindOf);
    assert Good(Run(env, orders), kindOf, {}, x);
  }

  /**
   Exclusivity: at most one started and unstopped manager exists per entity, registered
   or not, so registering never overwrote a live one; and entities awaiting a retry have none.
   */
  lemma AtMostOneManagerRuns(env: Env, orders: seq<seq<Id>>, kindOf: Id -> Kind, x: Entity)
    requires Honest(env, kindOf)
    ensures var s := Run(env, orders);
            && s.live[x] <= 1
            && (s.live[x] == 1 <==> x in s.managers && s.managers[x])
            && (x.1 in s.failed && s.failed[x.1] == x.0 ==> s.live[x] == 0)
  {
    EveryRunIsGood(env, orders, kindOf);
    assert Good(Run(env, orders), kindOf, {}, x);
    if x.1 in Run(env, orders).failed {
      assert Good(Run(env, orders), kindOf, {}, (kindOf(x.1), x.1));
    }
  }

  // ----- What single calls leave behind -----

  /** Deleting succeeds without a manager or when it stops, and then no manager is registered and one less runs if it ran; otherwise nothing changes. */
  lemma DeleteOutcome(env: Env, s: State, x: Entity)
    ensures var (t, ok) := DeleteManager(env, s, x);
            && (ok <==> (x in s.managers ==> env.stop(s.calls, x.1)))
            && (ok ==> x !in t.managers && t.live[x] == if Running(s, x) && s.live[x] > 0 then s.live[x] - 1 else s.live[x])
            && (!ok ==> t == s.(calls := s.calls + 1))
            && t.failed == s.failed && t.gone == s.gone
  {
  }

  /** A manager that does not start is never left running, is left registered only if it does not stop either, and its entity awaits a retry. */
  lemma FailedStartIsCleanedUp(env: Env, s: State, x: Entity)
    requires env.create(s.calls, x.1) && !env.start(s.calls + 1, x.1)
    ensures var t := CreateAndStart(env, s, x);
            && !Running(t, x) && t.live[x] == s.live[x]
            && (x in t.managers <==> !env.stop(s.calls + 2, x.1))
            && x.1 in t.failed && t.failed[x.1] == x.0
  {
    DeleteOutcome(env, Registered(s, x), x);
  }

  // ----- The history is what the calls answered -----

  ghost predicate LoadedBy(env: Env, s: State, k: Kind) {
    exists n: nat :: n < s.calls && env.list(n, k).Some? && forall id :: id in env.list(n, k).value ==> (k, id) in s.listed
  }

  ghost predicate ListedBy(env: Env, s: State, x: Entity) {
    exists n: nat :: n < s.calls && env.list(n, x.0).Some? && x.1 in env.list(n, x.0).value
  }

  ghost predicate MissedBy(env: Env, calls: nat, id: Id) {
    exists n: nat :: n < calls && env.get(n, id).NotFound?
  }

  ghost predicate StartedBy(env: Env, calls: nat, id: Id) {
    exists n: nat :: n < calls && env.start(n, id)
  }

  /** Kinds are loaded by a successful listing, entities come from listings, the store did not find what is gone, and running managers were started. */
  ghost predicate Witnessed(env: Env, s: State) {
    && (forall k :: k in s.loaded ==> LoadedBy(env, s, k))
    && (forall x :: x in s.listed ==> ListedBy(env, s, x))
    && (forall id :: id in s.gone ==> MissedBy(env, s.calls, id))
    && (forall x: Entity :: Running(s, x) ==> StartedBy(env, s.calls, x.1))
  }

  lemma LaterCalls(env: Env, calls: nat, later: nat, id: Id)
    requires calls <= later
    ensures MissedBy(env, calls, id) ==> MissedBy(env, later, id)
    ensures StartedBy(env, calls, id) ==> StartedBy(env, later, id)
  {
  }

  lemma ListingsStayWitnessed(env: Env, s: State, t: State)
    requires Witnessed(env, s) && s.calls <= t.calls && s.loaded == t.loaded && s.listed == t.listed
    ensures forall k :: k in t.loaded ==> LoadedBy(env, t, k)
    ensures forall x :: x in t.listed ==> ListedBy(env, t, x)
  {
    forall k | k in t.loaded ensures LoadedBy(env, t, k) {
      var n: nat :| n < s.calls && env.list(n, k).Some? && forall id :: id in env.list(n, k).value ==> (k, id) in s.listed;
      assert n < t.calls;
    }
    forall x | x in t.listed ensures ListedBy(env, t, x) {
      var n: nat :| n < s.calls && env.list(n, x.0).Some? && x.1 in env.list(n, x.0).value;
      assert n < t.calls;
    }
  }

  /** An operation on `x` keeps the history witnessed if what it adds for `x` is. */
  lemma OneStaysWitnessed(env: Env, s: State, t: State, x: Entity)
    requires Witnessed(env, s) && Touches(s, t, x)
    requires x.1 in t.gone ==> MissedBy(env, t.calls, x.1)
    requires Running(t, x) ==> StartedBy(env, t.calls, x.1)
    ensures Witnessed(env, t)
  {
    ListingsStayWitnessed(env, s, t);
    forall id | id in t.gone ensures MissedBy(env, t.calls, id) {
      if id != x.1 {
        assert SameEntry(s, t, id);
        LaterCalls(env, s.calls, t.calls, id);
      }
    }
    forall y: Entity | Running(t, y) ensures StartedBy(env, t.calls, y.1) {
      if y != x {
        assert SameManager(s, t, y);
        LaterCalls(env, s.calls, t.calls, y.1);
      }
    }
  }

  lemma CreateAndStartIsWitnessed(env: Env, s: State, x: Entity)
    requires Witnessed(env, s)
    ensures Witnessed(env, CreateAndStart(env, s, x))
  {
    var t := CreateAndStart(env, s, x);
    CreateAndStartTouches(env, s, x);
    LaterCalls(env, s.calls, t.calls, x.1);
    if env.create(s.calls, x.1) && env.start(s.calls + 1, x.1) {
      assert StartedBy(env, t.calls, x.1) by { assert s.calls + 1 < t.calls; }
    }
    OneStaysWitnessed(env, s, t, x);
  }

  lemma DeleteIsWitnessed(env: Env, s: State, x: Entity)
    requires Witnessed(env, s)
    ensures Witnessed(env, DeleteManager(env, s, x).0)
  {
    var t := DeleteManager(env, s, x).0;
    DeleteTouches(env, s, x);
    LaterCalls(env, s.calls, t.calls, x.1);
    OneStaysWitnessed(env, s, t, x);
  }

  lemma TickIsWitnessed(env: Env, s: State)
    requires Witnessed(env, s)
    ensures Witnessed(env, Tick(s))
  {
    ListingsStayWitnessed(env, s, Tick(s));
    forall id ensures MissedBy(env, s.calls, id) ==> MissedBy(env, s.calls + 1, id) { LaterCalls(env, s.calls, s.calls + 1, id); }
    forall id ensures StartedBy(env, s.calls, id) ==> StartedBy(env, s.calls + 1, id) { LaterCalls(env, s.calls, s.calls + 1, id); }
    forall x: Entity | Running(Tick(s), x) ensures StartedBy(env, s.calls + 1, x.1) { assert Running(s, x); }
  }

  lemma RetryIsWitnessed(env: Env, s: State, id: Id)
    requires Witnessed(env, s)
    ensures Witnessed(env, RetryOne(env, s, id))
  {
    if id in s.failed {
      TickIsWitnessed(env, s);
      var (s1, x) := (Tick(s), (s.failed[id], id));
      TickIsWitnessed(env, s1);
      var s2 := Tick(s1);
      match env.get(s1.calls, id)
      case NotFound =>
        ForgetTouches(s2, x);
        assert MissedBy(env, s2.calls, id) by { assert s1.calls < s2.calls; }
        assert Running(Forget(s2, x), x) ==> Running(s2, x);
        OneStaysWitnessed(env, s2, Forget(s2, x), x);
      case Unavailable =>
      case Found =>
        DeleteIsWitnessed(env, s2, x);
        CreateAndStartIsWitnessed(env, DeleteManager(env, s2, x).0, x);
    }
  }

  lemma {:induction false} CreateAllIsWitnessed(env: Env, s: State, k: Kind, ids: seq<Id>, skip: bool)
    requires Witnessed(env, s)
    ensures Witnessed(env, CreateAll(env, s, k, ids, skip))
    decreases |ids|
  {
    if ids != [] {
      if skip && (k, ids[0]) in s.managers {
        CreateAllIsWitnessed(env, s, k, ids[1..], skip);
      } else {
        CreateAndStartIsWitnessed(env, s, (k, ids[0]));
        CreateAllIsWitnessed(env, CreateAndStart(env, s, (k, ids[0])), k, ids[1..], skip);
      }
    }
  }

  lemma MarkLoadedIsWitnessed(env: Env, s: State, k: Kind, n: nat)
    requires Witnessed(env, s) && n < s.calls && env.list(n, k).Some?
    ensures Witnessed(env, MarkLoaded(s, k, env.list(n, k).value))
  {
    var (ids, t) := (env.list(n, k).value, MarkLoaded(s, k, env.list(n, k).value));
    forall j | j in t.loaded ensures LoadedBy(env, t, j) {
      if j != k {
        assert LoadedBy(env, s, j);
      }
    }
    forall x | x in t.listed ensures ListedBy(env, t, x) {
      if x in s.listed {
        assert ListedBy(env, s, x);
      }
    }
    forall x: Entity | Running(t, x) ensures StartedBy(env, t.calls, x.1) { assert Running(s, x); }
  }

  lemma {:induction false} LoadKindsIsWitnessed(env: Env, s: State, ks: seq<Kind>, retry: bool)
    requires Witnessed(env, s)
    ensures Witnessed(env, LoadKinds(env, s, ks, retry))
    decreases |ks|
  {
    if ks != [] {
      var k := ks[0];
      if !(retry && k in s.loaded) {
        TickIsWitnessed(env, s);
        if env.list(s.calls, k).Some? {
          MarkLoadedIsWitnessed(env, Tick(s), k, s.calls);
          CreateAllIsWitnessed(env, MarkLoaded(Tick(s), k, env.list(s.calls, k).value), k, env.list(s.calls, k).value, retry);
        }
      }
      LoadKindsIsWitnessed(env, if retry && k in s.loaded then s else LoadKind(env, s, k, retry), ks[1..], retry);
    }
  }

  lemma {:induction false} RetryAllIsWitnessed(env: Env, s: State, order: seq<Id>)
    requires Witnessed(env, s)
    ensures Witnessed(env, RetryAll(env, s, order))
    decreases |order|
  {
    if order != [] {
      RetryIsWitnessed(env, s, order[0]);
      RetryAllIsWitnessed(env, RetryOne(env, s, order[0]), order[1..]);
    }
  }

  lemma {:induction false} EveryRunIsWitnessed(env: Env, orders: seq<seq<Id>>)
    ensures Witnessed(env, Run(env, orders))
    decreases |orders|
  {
    if orders == [] {
      assert Witnessed(env, INITIAL);
      LoadKindsIsWitnessed(env, INITIAL, KINDS, false);
    } else {
      var s := Run(env, orders[..|orders| - 1]);
      EveryRunIsWitnessed(env, orders[..|orders| - 1]);
      LoadKindsIsWitnessed(env, s, KINDS, true);
      RetryAllIsWitnessed(env, LoadKinds(env, s, KINDS, true), orders[|orders| - 1]);
    }
  }

  /** Some listing of the kind succeeded, and everything it returned is looked after or was reported as not found by the store. */
  ghost predicate ListingCovered(env: Env, s: State, k: Kind, n: nat) {
    && n < s.calls && env.list(n, k).Some?
    && forall id :: id in env.list(n, k).value ==>
         Running(s, (k, id)) || (id in s.failed && s.failed[id] == k) || MissedBy(env, s.calls, id)
  }

  /**
   Coverage, said of what the calls answered: a kind counts as loaded only if one of its
   listings succeeded, and then everything that listing returned is covered.
   */
  lemma LoadedKindsAreCovered(env: Env, orders: seq<seq<Id>>, kindOf: Id -> Kind, k: Kind)
    requires Honest(env, kindOf) && k in Run(env, orders).loaded
    ensures exists n: nat :: ListingCovered(env, Run(env, orders), k, n)
  {
    var s := Run(env, orders);
    EveryRunIsWitnessed(env, orders);
    assert LoadedBy(env, s, k);
    var n: nat :| n < s.calls && env.list(n, k).Some? && forall id :: id in env.list(n, k).value ==> (k, id) in s.listed;
    forall id | id in env.list(n, k).value
      ensures Running(s, (k, id)) || (id in s.failed && s.failed[id] == k) || MissedBy(env, s.calls, id)
    {
      EveryListedEntityIsCovered(env, orders, kindOf, (k, id));
    }
    assert ListingCovered(env, s, k, n);
  }

  // ----- Progress -----

  /** The answers a retry of `x` needs to succeed. */
  predicate AnswersWell(env: Env, s: State, x: Entity) {
    var n := if x in s.managers then s.calls + 2 else s.calls + 1;
    && env.get(s.calls, x.1).Found?
    && (x in s.managers ==> env.stop(s.calls + 1, x.1))
    && env.create(n, x.1) && env.start(n + 1, x.1)
  }

  /** A retry takes its entity off the list exactly when all its calls succeed or the store has lost the entity. */
  lemma RetryShrinksIff(env: Env, s: State, x: Entity)
    requires x.1 in s.failed && s.failed[x.1] == x.0
    ensures var t := Retry(env, s, x);
            && t.failed == (if AnswersWell(env, s, x) || env.get(s.calls, x.1).NotFound? then s.failed - {x.1} else s.failed)
            && (AnswersWell(env, s, x) ==> Running(t, x))
  {
    if env.get(s.calls, x.1).Found? {
      RecreateOutcome(env, Tick(s), x);
      assert s.failed[x.1 := x.0] == s.failed;
    }
  }

  lemma RecreateOutcome(env: Env, s: State, x: Entity)
    ensures var n := if x in s.managers then s.calls + 1 else s.calls;
            var cleaned := x in s.managers ==> env.stop(s.calls, x.1);
            var ok := cleaned && env.create(n, x.1) && env.start(n + 1, x.1);
            var t := Recreate(env, s, x);
            && t.failed == (if ok then s.failed - {x.1} else if cleaned then s.failed[x.1 := x.0] else s.failed)
            && (ok ==> Running(t, x))
  {
    CreateAndStartOutcome(env, DeleteManager(env, s, x).0, x);
  }

  lemma CreateAndStartOutcome(env: Env, s: State, x: Entity)
    ensures var t, ok := CreateAndStart(env, s, x), env.create(s.calls, x.1) && env.start(s.calls + 1, x.1);
            && t.failed == (if ok then s.failed - {x.1} else s.failed[x.1 := x.0])
            && (ok ==> Running(t, x))
  {
  }

  /** Every call from number `from` on succeeds and every backoff has run out. */
  ghost predicate Healthy(env: Env, from: nat) {
    && (forall n: nat, k :: from <= n ==> env.list(n, k).Some?)
    && (forall n: nat, id :: from <= n ==> env.get(n, id).Found?)
    && (forall n: nat, id :: from <= n ==> env.create(n, id))
    && (forall n: nat, id :: from <= n ==> env.start(n, id))
    && (forall n: nat, id :: from <= n ==> env.stop(n, id))
    && (forall n: nat, id :: from <= n ==> env.due(n, id))
  }

  lemma HealthyCreate(env: Env, s: State, x: Entity)
    requires Healthy(env, s.calls)
    ensures CreateAndStart(env, s, x).failed == s.failed - {x.1}
    ensures CreateAndStart(env, s, x).calls >= s.calls
    ensures CreateAndStart(env, s, x).loaded == s.loaded
  {
  }

  lemma {:induction false} HealthyCreateAll(env: Env, s: State, k: Kind, ids: seq<Id>, skip: bool)
    requires Healthy(env, s.calls)
    ensures var t := CreateAll(env, s, k, ids, skip);
            t.failed.Keys <= s.failed.Keys && t.calls >= s.calls && t.loaded == s.loaded
    decreases |ids|
  {
    if ids != [] {
      if skip && (k, ids[0]) in s.managers {
        HealthyCreateAll(env, s, k, ids[1..], skip);
      } else {
        HealthyCreate(env, s, (k, ids[0]));
        HealthyCreateAll(env, CreateAndStart(env, s, (k, ids[0])), k, ids[1..], skip);
      }
    }
  }

  lemma {:induction false} HealthyLoad(env: Env, s: State, ks: seq<Kind>)
    requires Healthy(env, s.calls)
    ensures var t := LoadKinds(env, s, ks, true);
            && t.failed.Keys <= s.failed.Keys && t.calls >= s.calls
            && t.loaded == s.loaded + set k | k in ks
    decreases |ks|
  {
    if ks != [] {
      var k, t := ks[0], if ks[0] in s.loaded then s else LoadKind(env, s, ks[0], true);
      if k !in s.loaded {
        var ids := env.list(s.calls, k).value;
        HealthyCreateAll(env, MarkLoaded(Tick(s), k, ids), k, ids, true);
      }
      HealthyLoad(env, t, ks[1..]);
      assert ks == [k] + ks[1..];
    }
  }

  lemma HealthyRetry(env: Env, s: State, id: Id)
    requires Healthy(env, s.calls)
    ensures RetryOne(env, s, id).failed == s.failed - {id}
    ensures RetryOne(env, s, id).calls >= s.calls
  {
    if id in s.failed {
      RetryShrinksIff(env, Tick(s), (s.failed[id], id));
      RetryTouches(env, Tick(s), (s.failed[id], id));
    }
  }

  lemma {:induction false} HealthyRetryAll(env: Env, s: State, order: seq<Id>)
    requires Healthy(env, s.calls)
    ensures RetryAll(env, s, order).failed.Keys == s.failed.Keys - set id | id in order
    decreases |order|
  {
    if order != [] {
      HealthyRetry(env, s, order[0]);
      HealthyRetryAll(env, RetryOne(env, s, order[0]), order[1..]);
      assert order == [order[0]] + order[1..];
    }
  }

  /** A listing of the kind succeeded, and exactly one manager runs for everything it returned that the store did not report as missing. */
  ghost predicate ListingServed(env: Env, s: State, k: Kind, n: nat) {
    && n < s.calls && env.list(n, k).Some?
    && forall id :: id in env.list(n, k).value ==> s.live[(k, id)] == 1 || MissedBy(env, s.calls, id)
  }

  ghost predicate Served(env: Env, s: State, k: Kind) {
    exists n: nat :: ListingServed(env, s, k, n)
  }

  /**
   Recovery: whatever went wrong before, one round in which every call succeeds and
   every backoff has run out ends with nothing left to retry and all four kinds loaded
   and served, by one running manager for each entity listed.
   */
  lemma OneHealthyRoundRecovers(env: Env, orders: seq<seq<Id>>, order: seq<Id>, kindOf: Id -> Kind)
    requires Honest(env, kindOf) && Healthy(env, Run(env, orders).calls)
    requires forall id :: id in Run(env, orders).failed ==> id in order
    ensures var t := Run(env, orders + [order]);
            && t.failed == map[] && (forall k: Kind :: k in t.loaded)
            && (forall x :: x in t.listed && x.1 !in t.gone ==> t.live[x] == 1)
            && (forall k: Kind :: Served(env, t, k))
  {
    var t := Run(env, orders + [order]);
    RecoveryClears(env, orders, order);
    EveryRunIsGood(env, orders + [order], kindOf);
    forall x | x in t.listed && x.1 !in t.gone ensures t.live[x] == 1 {
      assert Good(t, kindOf, {}, x);
    }
    forall k: Kind ensures Served(env, t, k) {
      LoadedKindsAreCovered(env, orders + [order], kindOf, k);
      var n: nat :| ListingCovered(env, t, k, n);
      forall id | id in env.list(n, k).value ensures t.live[(k, id)] == 1 || MissedBy(env, t.calls, id) {
        AtMostOneManagerRuns(env, orders + [order], kindOf, (k, id));
      }
      assert ListingServed(env, t, k, n);
    }
  }

  lemma RecoveryClears(env: Env, orders: seq<seq<Id>>, order: seq<Id>)
    requires Healthy(env, Run(env, orders).calls)
    requires forall id :: id in Run(env, orders).failed ==> id in order
    ensures var t := Run(env, orders + [order]); t.failed == map[] && forall k: Kind :: k in t.loaded
  {
    var s := Run(env, orders);
    assert (orders + [order])[..|orders|] == orders;
    HealthyLoad(env, s, KINDS);
    var s1 := LoadKinds(env, s, KINDS, true);
    HealthyRetryAll(env, s1, order);
    RetryAllKeepsLoaded(env, s1, order);
    forall k: Kind ensures k in s1.loaded {
      assert k in KINDS by { EveryKind(k); }
    }
  }

  lemma {:induction false} RetryAllKeepsLoaded(env: Env, s: State, order: seq<Id>)
    ensures RetryAll(env, s, order).loaded == s.loaded
    decreases |order|
  {
    if order != [] {
      if order[0] in s.failed {
        RetryTouches(env, Tick(s), (s.failed[order[0]], order[0]));
      }
      RetryAllKeepsLoaded(env, RetryOne(env, s, order[0]), order[1..]);
    }
  }

  /** An entity that is not due, or no longer failed, is left alone. */
  lemma OnlyDueIsRetried(env: Env, s: State, id: Id)
    ensures id !in s.failed ==> RetryOne(env, s, id) == s
    ensures id in s.failed && !env.due(s.calls, id) ==> RetryOne(env, s, id) == s.(calls := s.calls + 1)
    ensures id in s.failed && env.due(s.calls, id) && env.get(s.calls + 1, id).NotFound? ==>
              RetryOne(env, s, id).failed == s.failed - {id}
  {
  }

  lemma EveryKind(k: Kind)
    ensures k in KINDS
  {
    assert KINDS[0] == Repository && KINDS[1] == Organization && KINDS[2] == Enterprise && KINDS[3] == ForgeInstance;
  }

  // ----- What the assumptions on listings are needed for -----

  /** Everything succeeds: each occurrence in a first listing starts a manager of its own. */
  lemma {:induction false} EachOccurrenceStarts(env: Env, s: State, k: Kind, ids: seq<Id>, id: Id)
    requires Healthy(env, s.calls)
    ensures CreateAll(env, s, k, ids, false).live[(k, id)] == s.live[(k, id)] + multiset(ids)[id]
    decreases |ids|
  {
    if ids != [] {
      var t := CreateAndStart(env, s, (k, ids[0]));
      assert t.live == s.live + multiset{(k, ids[0])};
      HealthyCreate(env, s, (k, ids[0]));
      EachOccurrenceStarts(env, t, k, ids[1..], id);
      assert ids == [ids[0]] + ids[1..];
    }
  }

  lemma RepeatedTwice(ids: seq<Id>, i: nat, j: nat)
    requires i < j < |ids| && ids[i] == ids[j]
    ensures multiset(ids)[ids[i]] >= 2
  {
    assert ids == ids[..j] + ids[j..];
    assert ids[i] in ids[..j] && ids[j] in ids[j..];
  }

  ghost predicate NeverTwice(s: State) {
    forall x: Entity :: s.live[x] <= 1
  }

  /** A first listing is safe whatever the calls answer exactly when it names no ID twice. */
  lemma FirstListingIsSafeIff(s: State, k: Kind, ids: seq<Id>, kindOf: Id -> Kind)
    requires AllGood(s, kindOf, {}) && k !in s.loaded && OfKind(ids, k, kindOf)
    ensures (forall env :: NeverTwice(CreateAll(env, MarkLoaded(s, k, ids), k, ids, false))) <==> NoDuplicates(ids)
  {
    var s1 := MarkLoaded(s, k, ids);
    MarkLoadedKeepsGood(s, k, ids, kindOf);
    if NoDuplicates(ids) {
      forall env ensures NeverTwice(CreateAll(env, s1, k, ids, false)) {
        CreateAllKeepsGood(env, s1, k, ids, false, kindOf);
        forall x: Entity ensures CreateAll(env, s1, k, ids, false).live[x] <= 1 {
          assert Good(CreateAll(env, s1, k, ids, false), kindOf, {}, x);
        }
      }
    } else {
      var i, j :| 0 <= i < j < |ids| && ids[i] == ids[j];
      var env := Delayed(0);
      EachOccurrenceStarts(env, s1, k, ids, ids[i]);
      RepeatedTwice(ids, i, j);
      assert CreateAll(env, s1, k, ids, false).live[(k, ids[i])] >= 2;
      assert !NeverTwice(CreateAll(env, s1, k, ids, false));
    }
  }

  /** A repeated listing skips registered entities and is safe even when it names an ID twice. */
  lemma RepeatedListingIsSafe(env: Env, s: State, k: Kind, ids: seq<Id>, kindOf: Id -> Kind)
    requires AllGood(s, kindOf, {}) && k !in s.loaded && OfKind(ids, k, kindOf)
    ensures NeverTwice(CreateAll(env, MarkLoaded(s, k, ids), k, ids, true))
  {
    MarkLoadedKeepsGood(s, k, ids, kindOf);
    CreateAllKeepsGood(env, MarkLoaded(s, k, ids), k, ids, true, kindOf);
    forall x: Entity ensures CreateAll(env, MarkLoaded(s, k, ids), k, ids, true).live[x] <= 1 {
      assert Good(CreateAll(env, MarkLoaded(s, k, ids), k, ids, true), kindOf, {}, x);
    }
  }

  /** Creating fails before call number `n`; everything else succeeds. */
  function Delayed(n: nat): Env {
    Env((_, _) => Some([]), (_, _) => Found, (m, _) => m >= n, (_, _) => true, (_, _) => true, (_, _) => true)
  }

  function LoadTwo(env: Env, k: Kind, ids: seq<Id>, l: Kind, more: seq<Id>): State {
    var s := CreateAll(env, MarkLoaded(INITIAL, k, ids), k, ids, false);
    CreateAll(env, MarkLoaded(s, l, more), l, more, false)
  }

  ghost predicate AllCovered(s: State) {
    forall x :: x in s.listed ==> Covered(s, x)
  }

  lemma {:induction false} AllCreatesFail(n: nat, s: State, k: Kind, ids: seq<Id>)
    requires s.calls + |ids| <= n
    ensures var t := CreateAll(Delayed(n), s, k, ids, false);
            t.managers == s.managers && t.calls == s.calls + |ids| && t.gone == s.gone && t.listed == s.listed
    decreases |ids|
  {
    if ids != [] {
      AllCreatesFail(n, CreateAndStart(Delayed(n), s, (k, ids[0])), k, ids[1..]);
    }
  }

  lemma OneCreateSucceeds(n: nat, s: State, x: Entity)
    requires n <= s.calls
    ensures var t := CreateAndStart(Delayed(n), s, x);
            && n <= t.calls && t.gone == s.gone && t.listed == s.listed
            && t.failed.Keys == s.failed.Keys - {x.1} && t.managers.Keys == s.managers.Keys + {x}
  {
  }

  lemma {:induction false} AllCreatesSucceed(n: nat, s: State, k: Kind, ids: seq<Id>)
    requires n <= s.calls
    ensures var t := CreateAll(Delayed(n), s, k, ids, false);
            && t.failed.Keys == s.failed.Keys - (set id | id in ids) && t.gone == s.gone && t.listed == s.listed
            && t.managers.Keys == s.managers.Keys + Entities(k, ids)
    decreases |ids|
  {
    if ids != [] {
      OneCreateSucceeds(n, s, (k, ids[0]));
      AllCreatesSucceed(n, CreateAndStart(Delayed(n), s, (k, ids[0])), k, ids[1..]);
      assert ids == [ids[0]] + ids[1..];
    }
  }

  /**
   failedEntities is keyed by ID alone. Loading two kinds covers every listed entity,
   whatever the calls answer, exactly when the two listings share no ID: with a shared
   one, the success of the second entity takes the failed first one off the list for good.
   */
  lemma KindsAreCoveredIff(k: Kind, ids: seq<Id>, l: Kind, more: seq<Id>)
    requires k != l && NoDuplicates(ids) && NoDuplicates(more)
    ensures (forall env :: AllCovered(LoadTwo(env, k, ids, l, more))) <==> (forall id :: id in ids ==> id !in more)
  {
    if forall id :: id in ids ==> id !in more {
      forall env ensures AllCovered(LoadTwo(env, k, ids, l, more)) {
        DisjointKindsAreCovered(env, k, ids, l, more);
      }
    } else {
      var id :| id in ids && id in more;
      SharedIdIsLost(k, ids, l, more, id);
    }
  }

  lemma DisjointKindsAreCovered(env: Env, k: Kind, ids: seq<Id>, l: Kind, more: seq<Id>)
    requires k != l && NoDuplicates(ids) && NoDuplicates(more) && forall id :: id in ids ==> id !in more
    ensures AllCovered(LoadTwo(env, k, ids, l, more))
  {
    var kindOf := (id: Id) => if id in ids then k else l;
    assert AllGood(INITIAL, kindOf, {});
    MarkLoadedKeepsGood(INITIAL, k, ids, kindOf);
    CreateAllKeepsGood(env, MarkLoaded(INITIAL, k, ids), k, ids, false, kindOf);
    var s := CreateAll(env, MarkLoaded(INITIAL, k, ids), k, ids, false);
    MarkLoadedKeepsGood(s, l, more, kindOf);
    CreateAllKeepsGood(env, MarkLoaded(s, l, more), l, more, false, kindOf);
    forall x | x in LoadTwo(env, k, ids, l, more).listed ensures Covered(LoadTwo(env, k, ids, l, more), x) {
      assert Good(LoadTwo(env, k, ids, l, more), kindOf, {}, x);
    }
  }

  lemma SharedIdIsLost(k: Kind, ids: seq<Id>, l: Kind, more: seq<Id>, id: Id)
    requires k != l && id in ids && id in more
    ensures !AllCovered(LoadTwo(Delayed(|ids|), k, ids, l, more))
  {
    var env, s0 := Delayed(|ids|), MarkLoaded(INITIAL, k, ids);
    AllCreatesFail(|ids|, s0, k, ids);
    var s := CreateAll(env, s0, k, ids, false);
    AllCreatesSucceed(|ids|, MarkLoaded(s, l, more), l, more);
    var t := LoadTwo(env, k, ids, l, more);
    assert (k, id) in Entities(k, ids);
    assert (k, id) in t.listed;
    assert id !in t.failed && id !in t.gone;
    assert (k, id) !in s.managers && (k, id) !in Entities(l, more);
    assert !Covered(t, (k, id));
  }

  // ----- The object -----

  class Runner {
    const env: Env
    var managers: map<Entity, bool>
    var failedEntities: map<Id, Kind>
    var loaded: set<Kind>
    var running: bool
    var calls: nat
    ghost var live: multiset<Entity>
    ghost var listed: set<Entity>
    ghost var gone: set<Id>

    ghost function Now(): State
      reads this
    {
      State(managers, failedEntities, loaded, calls, live, listed, gone)
    }

    constructor (env: Env)
      ensures this.env == env && !running
      ensures Now() == Run(env, [])
    {
      this.env := env;
      managers, failedEntities, loaded, running, calls := map[], map[], {}, false, 0;
      live, listed, gone := multiset{}, {}, {};
      new;
      LoadReposOrgsAndEnterprises();
    }

    method Start()
      modifies this
      ensures running && Now() == old(Now())
    {
      running := true;
    }

    method DeletePoolManager(x: Entity) returns (ok: bool)
      modifies this
      ensures Now() == DeleteManager(env, old(Now()), x).0 && ok == DeleteManager(env, old(Now()), x).1
      ensures running == old(running)
    {
      ok := true;
      if x in managers {
        ok := env.stop(calls, x.1);
        calls := calls + 1;
        if ok {
          live := if managers[x] then live - multiset{x} else live;
          managers := managers - {x};
        }
      }
    }

    method CreateAndStartPoolManager(x: Entity)
      modifies this
      ensures Now() == CreateAndStart(env, old(Now()), x)
      ensures running == old(running)
    {
      var created := env.create(calls, x.1);
      if !created {
        calls := calls + 1;
        MarkFailed(x);
        return;
      }
      managers := managers[x := false];
      var started := env.start(calls + 1, x.1);
      calls := calls + 2;
      assert Now() == Registered(old(Now()), x);
      if !started {
        CleanUp(x);
        return;
      }
      MarkStarted(x);
    }

    method MarkFailed(x: Entity)
      modifies this
      ensures Now() == Fail(old(Now()), x)
      ensures running == old(running)
    {
      failedEntities := failedEntities[x.1 := x.0];
    }

    method MarkStarted(x: Entity)
      modifies this
      ensures Now() == Started(old(Now()), x)
      ensures running == old(running)
    {
      managers, live := managers[x := true], live + multiset{x};
      failedEntities := failedEntities - {x.1};
    }

    method CleanUp(x: Entity)
      modifies this
      ensures Now() == Fail(DeleteManager(env, old(Now()), x).0, x)
      ensures running == old(running)
    {
      var _ := DeletePoolManager(x);
      MarkFailed(x);
    }

    method RetryFailedEntity(x: Entity)
      modifies this
      ensures Now() == Retry(env, old(Now()), x)
      ensures running == old(running)
    {
      var answer := env.get(calls, x.1);
      calls := calls + 1;
      match answer
      case NotFound =>
        failedEntities, gone := failedEntities - {x.1}, gone + {x.1};
      case Unavailable =>
      case Found =>
        assert Now() == Tick(old(Now()));
        RecreatePoolManager(x);
    }

    method RecreatePoolManager(x: Entity)
      modifies this
      ensures Now() == Recreate(env, old(Now()), x)
      ensures running == old(running)
    {
      var ok := DeletePoolManager(x);
      if ok {
        CreateAndStartPoolManager(x);
      }
    }

    /** The loop over one listing. */
    method CreateManagers(k: Kind, ids: seq<Id>, skip: bool)
      modifies this
      ensures Now() == CreateAll(env, old(Now()), k, ids, skip)
      ensures running == old(running)
    {
      for i := 0 to |ids|
        invariant CreateAll(env, Now(), k, ids[i..], skip) == CreateAll(env, old(Now()), k, ids, skip)
        invariant running == old(running)
      {
        assert ids[i..][1..] == ids[i + 1..];
        if !(skip && (k, ids[i]) in managers) {
          CreateAndStartPoolManager((k, ids[i]));
        }
      }
    }

    method ListAndCreate(k: Kind, skip: bool)
      modifies this
      ensures Now() == LoadKind(env, old(Now()), k, skip)
      ensures running == old(running)
    {
      var answer := env.list(calls, k);
      calls := calls + 1;
      if answer.Some? {
        loaded, listed := loaded + {k}, listed + Entities(k, answer.value);
        CreateManagers(k, answer.value, skip);
      }
    }

    method LoadReposOrgsAndEnterprises()
      modifies this
      ensures Now() == LoadKinds(env, old(Now()), KINDS, false)
      ensures running == old(running)
    {
      for i := 0 to |KINDS|
        invariant LoadKinds(env, Now(), KINDS[i..], false) == LoadKinds(env, old(Now()), KINDS, false)
        invariant running == old(running)
      {
        assert KINDS[i..][1..] == KINDS[i + 1..];
        ListAndCreate(KINDS[i], false);
      }
    }

    /** The retry loop's body; `order` is the order in which the range visited failedEntities. */
    method RetryFailedPoolManagers() returns (ghost order: seq<Id>)
      modifies this
      ensures Now() == if old(running) then Round(env, old(Now()), order) else old(Now())
      ensures old(running) ==> forall id :: id in LoadKinds(env, old(Now()), KINDS, true).failed ==> id in order
      ensures running == old(running)
    {
      order := [];
      if !running {
        return;
      }
      RetryListings();
      order := RetryEntities();
    }

    method RetryListings()
      modifies this
      ensures Now() == LoadKinds(env, old(Now()), KINDS, true)
      ensures running == old(running)
    {
      for i := 0 to |KINDS|
        invariant LoadKinds(env, Now(), KINDS[i..], true) == LoadKinds(env, old(Now()), KINDS, true)
        invariant running == old(running)
      {
        assert KINDS[i..][1..] == KINDS[i + 1..];
        if KINDS[i] !in loaded {
          ListAndCreate(KINDS[i], true);
        }
      }
    }

    method RetryEntities() returns (ghost order: seq<Id>)
      modifies this
      ensures Now() == RetryAll(env, old(Now()), order)
      ensures forall id :: id in old(failedEntities) ==> id in order
      ensures running == old(running)
    {
      order := [];
      var todo := failedEntities.Keys;
      while todo != {}
        invariant Now() == RetryAll(env, old(Now()), order)
        invariant forall id :: id in old(failedEntities) ==> id in order || id in todo
        invariant running == old(running)
        decreases |todo|
      {
        var id :| id in todo;
        todo := todo - {id};
        RetryAllAppend(env, old(Now()), order, id);
        RetryIfDue(id);
        order := order + [id];
      }
    }

    /** The body of that loop. */
    method RetryIfDue(id: Id)
      modifies this
      ensures Now() == RetryOne(env, old(Now()), id)
      ensures running == old(running)
    {
      if id in failedEntities {
        var due := env.due(calls, id);
        calls := calls + 1;
        assert Now() == Tick(old(Now()));
        if due {
          RetryFailedEntity((failedEntities[id], id));
        }
      }
    }
  }

  /** NewRunner gives up if the controller info or the providers cannot be loaded, before anything is listed. */
  method NewRunner(env: Env, controllerInfo: bool, providers: bool) returns (r: Option<Runner>)
    ensures r.Some? <==> controllerInfo && providers
    ensures r.Some? ==> fresh(r.value) && r.value.env == env && !r.value.running && r.value.Now() == Run(env, [])
  {
    if !controllerInfo { return None; }
    if !providers { return None; }
    var runner := new Runner(env);
    return Some(runner);
  }

  lemma {:induction false} RetryAllAppend(env: Env, s: State, order: seq<Id>, id: Id)
    ensures RetryAll(env, s, order + [id]) == RetryOne(env, RetryAll(env, s, order), id)
    decreases |order|
  {
    if order == [] {
      assert RetryAll(env, RetryOne(env, s, id), []) == RetryOne(env, s, id);
    } else {
      assert (order + [id])[1..] == order[1..] + [id];
      RetryAllAppend(env, RetryOne(env, s, order[0]), order[1..], id);
    }
  }
}
