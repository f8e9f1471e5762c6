/**
 The two credential caches of cache/credentials_cache.go laid over the entity
 cache. Updates touch a credential cache first and refresh the copies embedded in
 entities later, each part under its own mutex, and reads fetch an entity first and
 its credentials later; every part is one step, and steps of any number of
 goroutines interleave freely.
 */
module CredentialCaches {
  import opened Wrappers
  import opened Params
  import EntityCaches

  type CredMap = map<nat, Credentials>

  /** credentialsCache and giteaCredentialsCache. */
  datatype Creds = Creds(github: CredMap, gitea: CredMap)

  /** Which credentials: the forge and the ID. */
  datatype Ref = Ref(forge: Forge, id: nat)

  function RefOf(c: Credentials): Ref { Ref(c.forge, c.id) }

  function CacheFor(c: Creds, forge: Forge): CredMap {
    if forge == Github then c.github else if forge == Gitea then c.gitea else map[]
  }

  /** GetForgeCredentials */
  function Lookup(c: Creds, ref: Ref): Option<Credentials> {
    if ref.id in CacheFor(c, ref.forge) then Some(CacheFor(c, ref.forge)[ref.id]) else None
  }

  /** withCachedCredentials */
  function WithCached(c: Creds, x: ForgeEntity): ForgeEntity {
    match Lookup(c, RefOf(x.credentials))
    case Some(found) => x.(credentials := found)
    case None => x
  }

  function UpdateCache(c: Creds, forge: Forge, m: CredMap): Creds {
    if forge == Github then c.(github := m) else if forge == Gitea then c.(gitea := m) else c
  }

  function WithEndpoint(c: Credentials, ep: Endpoint): Credentials {
    if c.endpoint.name == ep.name then c.(endpoint := ep) else c
  }

  /** UpdateCredentialsInAffectedEntities: matches on the numeric ID only. */
  function Refreshed(entities: map<string, ForgeEntity>, c: Credentials): map<string, ForgeEntity> {
    map e | e in entities :: if entities[e].credentials.id == c.id then entities[e].(credentials := c) else entities[e]
  }

  /** The compound update inside UpdateCredentialsUsingEndpoint, ranging over the map in some order. */
  method UpdateUsingEndpoint(m: CredMap, ep: Endpoint) returns (m': CredMap, updated: seq<Credentials>)
    requires forall i :: i in m ==> m[i].id == i
    ensures m' == map i | i in m :: WithEndpoint(m[i], ep)
    ensures forall c :: c in updated <==> exists i :: i in m && m[i].endpoint.name == ep.name && c == WithEndpoint(m[i], ep)
  {
    m', updated := m, [];
    var todo := m.Keys;
    while todo != {}
      invariant todo <= m.Keys == m'.Keys
      invariant forall i :: i in m ==> m'[i] == if i in todo then m[i] else WithEndpoint(m[i], ep)
      invariant forall c :: c in updated <==>
                  exists i :: i in m && i !in todo && m[i].endpoint.name == ep.name && c == WithEndpoint(m[i], ep)
      decreases |todo|
    {
      var i :| i in todo;
      ghost var before := updated;
      todo := todo - {i};
      if m'[i].endpoint.name == ep.name {
        var c := m'[i].(endpoint := ep);
        m' := m'[c.id := c];
        updated := updated + [c];
      }
      forall c ensures c in updated <==>
                 exists j :: j in m && j !in todo && m[j].endpoint.name == ep.name && c == WithEndpoint(m[j], ep) {
        if c in updated && c !in before { assert i in m && i !in todo; }
      }
    }
  }

  /** The part of the entity cache that matters for credentials. */
  function EntitiesOf(s: EntityCaches.Cache): map<string, ForgeEntity> {
    map e | e in s.entities :: s.entities[e].entity
  }

  function EntitiesAfter(entities: map<string, ForgeEntity>, op: EntityCaches.CacheOp): map<string, ForgeEntity> {
    match op
    case SetEntity(x) => entities[x.id := x]
    case DeleteEntity(e) => entities - {e}
    case UpdateCredentials(c) => Refreshed(entities, c)
    case _ => entities
  }

  /** Seen through that part, every operation of the entity cache is one of the entity steps below, or no step at all. */
  lemma EntityStepsAreFaithful(s: EntityCaches.Cache, op: EntityCaches.CacheOp)
    ensures EntitiesOf(EntityCaches.Step(s, op)) == EntitiesAfter(EntitiesOf(s), op)
  {
    var s' := EntityCaches.Step(s, op);
    assert EntitiesOf(s').Keys == EntitiesAfter(EntitiesOf(s), op).Keys;
  }

  // ----- The interleaved system -----

  /** An entity read from the entity cache whose credentials are still to be looked up; `asked` is history: its assignment at that moment. */
  datatype Pending = Pending(entity: ForgeEntity, asked: Ref)

  /** An entity that a read returns. What it was read as and the caches its credentials were looked up in are history. */
  datatype Answer = Answer(entity: ForgeEntity, read: Pending, caches: Creds)

  datatype Pc =
    | Idle
    | Refreshing(todo: seq<Credentials>)                          // entity copies still to be refreshed
    | Resolving(pending: seq<Pending>, done: seq<Answer>)         // GetEntity and GetAllEntities after the first lock

  /** `assignment` is history: the forge and ID of the credentials last given to SetEntity. */
  datatype World = World(
    creds: Creds,
    entities: map<string, ForgeEntity>,
    threads: map<int, Pc>,
    assignment: map<string, Ref>)

  function PcOf(w: World, t: int): Pc {
    if t in w.threads then w.threads[t] else Idle
  }

  datatype Event =
    | SetCredentials(t: int, forge: Forge, c: Credentials)          // Set, then one refresh
    | SetRateLimit(t: int, id: nat, limit: RateLimit)               // GitHub only
    | UpdateEndpoint(t: int, ep: Endpoint, updated: seq<Credentials>) // Gitea only, then one refresh for each updated entry
    | DeleteCredentials(t: int, forge: Forge, id: nat)
    | RefreshNext(t: int)
    | SetEntity(t: int, x: ForgeEntity)
    | DeleteEntity(t: int, e: string)
    | ReadEntities(t: int, es: seq<string>)                         // first half of GetEntity (one ID) and GetAllEntities (all)
    | ResolveNext(t: int)

  predicate Enabled(w: World, ev: Event) {
    var p := PcOf(w, ev.t);
    match ev
    case RefreshNext(_) => p.Refreshing?
    case ResolveNext(_) => p.Resolving?
    case UpdateEndpoint(_, ep, updated) =>
      && p.Idle?
      && (forall c <- updated :: c.id in w.creds.gitea && w.creds.gitea[c.id].endpoint.name == ep.name
                              && c == WithEndpoint(w.creds.gitea[c.id], ep))
      && (forall i <- w.creds.gitea :: w.creds.gitea[i].endpoint.name == ep.name ==> WithEndpoint(w.creds.gitea[i], ep) in updated)
    case ReadEntities(_, es) => p.Idle? && forall e <- es :: e in w.entities && e in w.assignment
    case _ => p.Idle?
  }

  function Next(w: World, ev: Event): World
    requires Enabled(w, ev)
  {
    var p := PcOf(w, ev.t);
    match ev
    case SetCredentials(t, forge, c) =>
      w.(creds := UpdateCache(w.creds, forge, CacheFor(w.creds, forge)[c.id := c]),
         threads := w.threads[t := Refreshing([c])])
    case SetRateLimit(t, id, limit) =>
      var m := w.creds.github;
      w.(creds := w.creds.(github := if id in m then m[id := m[id].(rateLimit := Some(limit))] else m))
    case UpdateEndpoint(t, ep, updated) =>
      var m := w.creds.gitea;
      w.(creds := w.creds.(gitea := map i | i in m :: WithEndpoint(m[i], ep)),
         threads := w.threads[t := Refreshing(updated)])
    case DeleteCredentials(t, forge, id) =>
      w.(creds := UpdateCache(w.creds, forge, CacheFor(w.creds, forge) - {id}))
    case RefreshNext(t) =>
      if p.todo == [] then w.(threads := w.threads[t := Idle])
      else
        w.(entities := Refreshed(w.entities, p.todo[0]),
           threads := w.threads[t := Refreshing(p.todo[1..])])
    case SetEntity(t, x) =>
      w.(entities := w.entities[x.id := x], assignment := w.assignment[x.id := RefOf(x.credentials)])
    case DeleteEntity(t, e) =>
      w.(entities := w.entities - {e}, assignment := w.assignment - {e})
    case ReadEntities(t, es) =>
      var todo := seq(|es|, i requires 0 <= i < |es| => assert es[i] in es; Pending(w.entities[es[i]], w.assignment[es[i]]));
      w.(threads := w.threads[t := Resolving(todo, [])])
    case ResolveNext(t) =>
      if p.pending == [] then w.(threads := w.threads[t := Idle])
      else
        var x := Answer(WithCached(w.creds, p.pending[0].entity), p.pending[0], w.creds);
        w.(threads := w.threads[t := Resolving(p.pending[1..], p.done + [x])])
  }

  // ----- Freshness when GitHub and Gitea IDs do not collide -----

  /** The credentials carry the forge that owns their ID. */
  predicate Honest(c: Credentials, forgeOf: nat -> Forge) {
    c.forge == forgeOf(c.id)
  }

  /** IDs do not collide: whatever credentials come in carry the forge that owns their ID, and go to that forge's cache. */
  predicate NoCollision(ev: Event, forgeOf: nat -> Forge) {
    match ev
    case SetCredentials(_, forge, c) => Honest(c, forgeOf) && c.forge == forge
    case SetEntity(_, x) => Honest(x.credentials, forgeOf)
    case _ => true
  }

  ghost predicate CacheSound(m: CredMap, forge: Forge, forgeOf: nat -> Forge) {
    forall i :: i in m ==> m[i].id == i && m[i].forge == forge && forgeOf(i) == forge
  }

  /** What a read should return: the entity with the credential cache's present copy of the credentials it was assigned. */
  function Fresh(c: Creds, x: ForgeEntity, asked: Ref): ForgeEntity {
    x.(credentials := Lookup(c, asked).GetOr(x.credentials))
  }

  /** The answer carries the copy that was cached when its credentials were looked up, for the forge and ID assigned when it was read. */
  predicate IsFresh(a: Answer) {
    && a.entity == Fresh(a.caches, a.read.entity, a.read.asked)
    && RefOf(a.entity.credentials) == a.read.asked
  }

  /** What a goroutine carries between its steps. */
  ghost predicate CarriesSound(p: Pc, forgeOf: nat -> Forge) {
    && (p.Refreshing? ==> forall i :: 0 <= i < |p.todo| ==> Honest(p.todo[i], forgeOf))
    && (p.Resolving? ==> forall i :: 0 <= i < |p.pending| ==> RefOf(p.pending[i].entity.credentials) == p.pending[i].asked)
    && (p.Resolving? ==> forall i :: 0 <= i < |p.done| ==> IsFresh(p.done[i]))
  }

  ghost predicate CachesSound(w: World, forgeOf: nat -> Forge) {
    CacheSound(w.creds.github, Github, forgeOf) && CacheSound(w.creds.gitea, Gitea, forgeOf)
  }

  /** Embedded copies may be stale, but they always name the credentials the entity was assigned. */
  ghost predicate EntitiesSound(w: World, forgeOf: nat -> Forge) {
    && w.entities.Keys == w.assignment.Keys
    && forall e :: e in w.entities ==>
         Honest(w.entities[e].credentials, forgeOf) && RefOf(w.entities[e].credentials) == w.assignment[e]
  }

  ghost predicate Consistent(w: World, forgeOf: nat -> Forge) {
    && CachesSound(w, forgeOf)
    && EntitiesSound(w, forgeOf)
    && (forall t :: t in w.threads ==> CarriesSound(w.threads[t], forgeOf))
  }

  lemma StepKeepsCaches(w: World, ev: Event, forgeOf: nat -> Forge)
    requires Consistent(w, forgeOf) && Enabled(w, ev) && NoCollision(ev, forgeOf)
    ensures CachesSound(Next(w, ev), forgeOf)
  {
  }

  lemma StepKeepsEntities(w: World, ev: Event, forgeOf: nat -> Forge)
    requires Consistent(w, forgeOf) && Enabled(w, ev) && NoCollision(ev, forgeOf)
    ensures EntitiesSound(Next(w, ev), forgeOf)
  {
    var w' := Next(w, ev);
    assert CarriesSound(PcOf(w, ev.t), forgeOf);
    assert w'.entities.Keys == w'.assignment.Keys;
    forall e | e in w'.entities
      ensures Honest(w'.entities[e].credentials, forgeOf) && RefOf(w'.entities[e].credentials) == w'.assignment[e]
    {
      assert e in w.entities ==> Honest(w.entities[e].credentials, forgeOf) && RefOf(w.entities[e].credentials) == w.assignment[e];
    }
  }

  lemma StepKeepsOwnCarried(w: World, ev: Event, forgeOf: nat -> Forge)
    requires Consistent(w, forgeOf) && Enabled(w, ev) && NoCollision(ev, forgeOf)
    ensures CarriesSound(PcOf(Next(w, ev), ev.t), forgeOf)
  {
    assert CarriesSound(PcOf(w, ev.t), forgeOf);
  }

  lemma OtherThreadsKept(w: World, ev: Event)
    requires Enabled(w, ev)
    ensures forall t :: t != ev.t && t in Next(w, ev).threads ==> t in w.threads && Next(w, ev).threads[t] == w.threads[t]
  {
  }

  lemma StepKeepsCarried(w: World, ev: Event, forgeOf: nat -> Forge)
    requires Consistent(w, forgeOf) && Enabled(w, ev) && NoCollision(ev, forgeOf)
    ensures forall t :: t in Next(w, ev).threads ==> CarriesSound(Next(w, ev).threads[t], forgeOf)
  {
    StepKeepsOwnCarried(w, ev, forgeOf);
    OtherThreadsKept(w, ev);
  }

  lemma StepKeepsConsistent(w: World, ev: Event, forgeOf: nat -> Forge)
    requires Consistent(w, forgeOf) && Enabled(w, ev) && NoCollision(ev, forgeOf)
    ensures Consistent(Next(w, ev), forgeOf)
  {
    StepKeepsCaches(w, ev, forgeOf);
    StepKeepsEntities(w, ev, forgeOf);
    StepKeepsCarried(w, ev, forgeOf);
  }

  ghost predicate IsRun(w: World, evs: seq<Event>, forgeOf: nat -> Forge)
    decreases |evs|
  {
    evs == [] || (Enabled(w, evs[0]) && NoCollision(evs[0], forgeOf) && IsRun(Next(w, evs[0]), evs[1..], forgeOf))
  }

  ghost function Final(w: World, evs: seq<Event>, forgeOf: nat -> Forge): World
    requires IsRun(w, evs, forgeOf)
    decreases |evs|
  {
    if evs == [] then w else Final(Next(w, evs[0]), evs[1..], forgeOf)
  }

  lemma EmptyIsConsistent(forgeOf: nat -> Forge)
    ensures Consistent(World(Creds(map[], map[]), map[], map[], map[]), forgeOf)
  {
  }

  /**
   In every interleaving without ID collisions: an entity's credentials always stand
   for the forge and ID last given to SetEntity; and every entity a read returns, from
   GetEntity or anywhere in the list of GetAllEntities, carries the credential cache's
   copy of the moment it was resolved, for the forge and ID the entity was assigned
   when it was read, even while the embedded copy was stale.
   */
  lemma {:induction false} ReadsAreFresh(w: World, evs: seq<Event>, forgeOf: nat -> Forge)
    requires Consistent(w, forgeOf) && IsRun(w, evs, forgeOf)
    ensures var w' := Final(w, evs, forgeOf);
            && Consistent(w', forgeOf)
            && (forall e :: e in w'.entities ==> RefOf(w'.entities[e].credentials) == w'.assignment[e])
            && (forall t, i :: PcOf(w', t).Resolving? && 0 <= i < |PcOf(w', t).done| ==> IsFresh(PcOf(w', t).done[i]))
    decreases |evs|
  {
    if evs == [] {
      forall t, i | PcOf(w, t).Resolving? && 0 <= i < |PcOf(w, t).done| ensures IsFresh(PcOf(w, t).done[i]) {
        assert CarriesSound(PcOf(w, t), forgeOf);
      }
    } else {
      StepKeepsConsistent(w, evs[0], forgeOf);
      ReadsAreFresh(Next(w, evs[0]), evs[1..], forgeOf);
    }
  }

  // ----- What a read returns -----

  function ReadsOf(done: seq<Answer>): seq<Pending> {
    seq(|done|, i requires 0 <= i < |done| => done[i].read)
  }

  /** t only goes on with its read during the run. */
  ghost predicate SameRead(evs: seq<Event>, t: int) {
    forall i :: 0 <= i < |evs| && evs[i].t == t ==> evs[i].ResolveNext?
  }

  lemma OthersKeepPc(w: World, ev: Event, t: int)
    requires Enabled(w, ev) && ev.t != t
    ensures PcOf(Next(w, ev), t) == PcOf(w, t)
  {
  }

  lemma {:induction false} FinishedReadStays(w: World, evs: seq<Event>, t: int, forgeOf: nat -> Forge)
    requires IsRun(w, evs, forgeOf) && SameRead(evs, t) && PcOf(w, t).Idle?
    ensures PcOf(Final(w, evs, forgeOf), t).Idle?
    decreases |evs|
  {
    if evs != [] {
      assert evs[0].t != t;
      assert forall i :: 0 <= i < |evs| - 1 ==> evs[1..][i] == evs[i + 1];
      OthersKeepPc(w, evs[0], t);
      FinishedReadStays(Next(w, evs[0]), evs[1..], t, forgeOf);
    }
  }

  lemma ResolveKeepsReads(w: World, t: int)
    requires PcOf(w, t).Resolving? && PcOf(w, t).pending != []
    ensures var (p, q) := (PcOf(w, t), PcOf(Next(w, ResolveNext(t)), t));
            q.Resolving? && ReadsOf(q.done) + q.pending == ReadsOf(p.done) + p.pending
  {
    var p := PcOf(w, t);
    assert p.pending == [p.pending[0]] + p.pending[1..];
  }

  /** Whatever happens meanwhile, a read answers for the entities it started with, in order, and for no others. */
  lemma {:induction false} ReadKeepsItsEntities(w: World, evs: seq<Event>, t: int, forgeOf: nat -> Forge)
    requires IsRun(w, evs, forgeOf) && SameRead(evs, t)
    requires PcOf(w, t).Resolving? && PcOf(Final(w, evs, forgeOf), t).Resolving?
    ensures var (p, q) := (PcOf(w, t), PcOf(Final(w, evs, forgeOf), t));
            ReadsOf(q.done) + q.pending == ReadsOf(p.done) + p.pending
    decreases |evs|
  {
    if evs != [] {
      assert forall i :: 0 <= i < |evs| - 1 ==> evs[1..][i] == evs[i + 1];
      if evs[0].t != t {
        OthersKeepPc(w, evs[0], t);
      } else if PcOf(w, t).pending == [] {
        FinishedReadStays(Next(w, evs[0]), evs[1..], t, forgeOf);
        assert false;
      } else {
        ResolveKeepsReads(w, t);
      }
      ReadKeepsItsEntities(Next(w, evs[0]), evs[1..], t, forgeOf);
    }
  }

  lemma ReadStarts(w: World, t: int, es: seq<string>)
    requires Enabled(w, ReadEntities(t, es))
    ensures forall i :: 0 <= i < |es| ==> es[i] in w.entities && es[i] in w.assignment
    ensures var p := PcOf(Next(w, ReadEntities(t, es)), t);
            && p.Resolving? && p.done == [] && |p.pending| == |es|
            && forall i :: 0 <= i < |es| ==> p.pending[i] == Pending(w.entities[es[i]], w.assignment[es[i]])
  {
    assert forall i :: 0 <= i < |es| ==> es[i] in es;
  }

  /** A read that has resolved everything returns each entity asked for, as it was when the read began, with fresh credentials. */
  lemma ReadReturnsAll(w: World, t: int, es: seq<string>, evs: seq<Event>, forgeOf: nat -> Forge)
    requires Consistent(w, forgeOf) && Enabled(w, ReadEntities(t, es))
    requires IsRun(Next(w, ReadEntities(t, es)), evs, forgeOf) && SameRead(evs, t)
    requires var q := PcOf(Final(Next(w, ReadEntities(t, es)), evs, forgeOf), t); q.Resolving? && q.pending == []
    ensures var done := PcOf(Final(Next(w, ReadEntities(t, es)), evs, forgeOf), t).done;
            && |done| == |es|
            && forall i :: 0 <= i < |es| ==>
                 && es[i] in w.entities && es[i] in w.assignment
                 && done[i].entity == Fresh(done[i].caches, w.entities[es[i]], w.assignment[es[i]])
  {
    var ev := ReadEntities(t, es);
    var w1 := Next(w, ev);
    var (p, q) := (PcOf(w1, t), PcOf(Final(w1, evs, forgeOf), t));
    assert NoCollision(ev, forgeOf);
    StepKeepsConsistent(w, ev, forgeOf);
    ReadKeepsItsEntities(w1, evs, t, forgeOf);
    ReadsAreFresh(w1, evs, forgeOf);
    ReadStarts(w, t, es);
    assert ReadsOf(q.done) == ReadsOf(q.done) + q.pending;
    assert p.pending == ReadsOf(p.done) + p.pending;
    forall i | 0 <= i < |es|
      ensures q.done[i].entity == Fresh(q.done[i].caches, w.entities[es[i]], w.assignment[es[i]])
    {
      assert ReadsOf(q.done)[i] == p.pending[i];
      assert IsFresh(q.done[i]);
    }
  }

  /** The entity steps are those of the entity cache. */
  lemma EntityStepsAreCacheSteps(w: World, ev: Event)
    requires Enabled(w, ev)
    ensures ev.SetEntity? ==> Next(w, ev).entities == EntitiesAfter(w.entities, EntityCaches.SetEntity(ev.x))
    ensures ev.DeleteEntity? ==> Next(w, ev).entities == EntitiesAfter(w.entities, EntityCaches.DeleteEntity(ev.e))
    ensures ev.RefreshNext? && PcOf(w, ev.t).todo != [] ==>
              Next(w, ev).entities == EntitiesAfter(w.entities, EntityCaches.UpdateCredentials(PcOf(w, ev.t).todo[0]))
    ensures !ev.SetEntity? && !ev.DeleteEntity? && !ev.RefreshNext? ==> Next(w, ev).entities == w.entities
  {
  }

  /** SetEntity records the entity and its assignment, DeleteEntity forgets both, and no other step reassigns anything. */
  lemma AssignmentsAreRecorded(w: World, ev: Event, e: string)
    requires Enabled(w, ev)
    ensures ev.SetEntity? && ev.x.id == e ==>
              && e in Next(w, ev).entities && Next(w, ev).entities[e] == ev.x
              && e in Next(w, ev).assignment && Next(w, ev).assignment[e] == Ref(ev.x.credentials.forge, ev.x.credentials.id)
    ensures ev.DeleteEntity? && ev.e == e ==> e !in Next(w, ev).entities && e !in Next(w, ev).assignment
    ensures !(ev.SetEntity? && ev.x.id == e) && !(ev.DeleteEntity? && ev.e == e) ==>
              && (e in Next(w, ev).assignment <==> e in w.assignment)
              && (e in w.assignment ==> Next(w, ev).assignment[e] == w.assignment[e])
  {
  }

  /** Deleted credentials are no longer found, and all others still are. */
  lemma DeletedCredentialsAreGone(w: World, t: int, ref: Ref, other: Ref)
    requires Enabled(w, DeleteCredentials(t, ref.forge, ref.id))
    ensures Lookup(Next(w, DeleteCredentials(t, ref.forge, ref.id)).creds, ref).None?
    ensures other != ref ==>
              Lookup(Next(w, DeleteCredentials(t, ref.forge, ref.id)).creds, other) == Lookup(w.creds, other)
  {
  }

  /** What a read of `x` would return if it resolved its credentials now. */
  function Resolved(w: World, x: ForgeEntity): Credentials {
    WithCached(w.creds, x).credentials
  }

  /** New credentials are seen by every read that resolves after the first half of the update, and by entities assigned to them only. */
  lemma NewCredentialsAreSeenAtOnce(w: World, t: int, c: Credentials, x: ForgeEntity)
    requires Enabled(w, SetCredentials(t, c.forge, c)) && c.forge != OtherForge
    ensures Resolved(Next(w, SetCredentials(t, c.forge, c)), x) ==
            if RefOf(x.credentials) == RefOf(c) then c else Resolved(w, x)
  {
  }

  /** A rate limit is seen at once by exactly the entities assigned to those GitHub credentials, if they are cached, with nothing else changed. */
  lemma RateLimitIsSeenAtOnce(w: World, t: int, id: nat, limit: RateLimit, x: ForgeEntity)
    requires Enabled(w, SetRateLimit(t, id, limit))
    ensures Resolved(Next(w, SetRateLimit(t, id, limit)), x) ==
            if RefOf(x.credentials) == Ref(Github, id) && id in w.creds.github
            then Resolved(w, x).(rateLimit := Some(limit)) else Resolved(w, x)
  {
  }

  /** A changed endpoint is seen at once by every entity whose cached Gitea credentials use it. */
  lemma EndpointIsSeenAtOnce(w: World, t: int, ep: Endpoint, updated: seq<Credentials>, x: ForgeEntity)
    requires Enabled(w, UpdateEndpoint(t, ep, updated))
    ensures Resolved(Next(w, UpdateEndpoint(t, ep, updated)), x) ==
            if x.credentials.forge == Gitea && x.credentials.id in w.creds.gitea && Resolved(w, x).endpoint.name == ep.name
            then Resolved(w, x).(endpoint := ep) else Resolved(w, x)
  {
  }

  /** A refresh, which matches on the ID alone, keeps every assignment exactly when the ID is not used by the other forge. */
  lemma RefreshKeepsAssignmentsIff(entities: map<string, ForgeEntity>, assignment: map<string, Ref>, c: Credentials)
    requires entities.Keys == assignment.Keys
    requires forall e :: e in entities ==> RefOf(entities[e].credentials) == assignment[e]
    ensures (forall e :: e in entities ==> RefOf(Refreshed(entities, c)[e].credentials) == assignment[e]) <==>
            (forall e :: e in entities && entities[e].credentials.id == c.id ==> entities[e].credentials.forge == c.forge)
  {
    if e :| e in entities && entities[e].credentials.id == c.id && entities[e].credentials.forge != c.forge {
      assert Refreshed(entities, c)[e].credentials == c;
    }
  }

  /** With a collision, reads of the entity then return credentials of the wrong forge. */
  lemma CollisionMisleadsReads(w: World, e: string, c: Credentials)
    requires e in w.entities && w.entities[e].credentials.id == c.id && w.entities[e].credentials.forge != c.forge
    requires Lookup(w.creds, RefOf(c)) == Some(c)
    ensures WithCached(w.creds, Refreshed(w.entities, c)[e]).credentials == c
    ensures WithCached(w.creds, Refreshed(w.entities, c)[e]).credentials.forge != w.entities[e].credentials.forge
  {
  }
}
