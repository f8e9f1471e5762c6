/**
 The mutexes of the cache package. Every operation is the sequence of Lock and
 Unlock calls its body makes, in order; any number of goroutines run operations
 concurrently.
 */
module CacheLocks {

  /** `OtherMutex` stands for the caches whose operations take only their own mutex: tools, clients, templates, proxies, controller. */
  datatype Mutex = EntityMutex | GithubMutex | GiteaMutex | InstanceMutex | EndpointMutex | OtherMutex(name: string)

  datatype Action = Lock(m: Mutex) | Unlock(m: Mutex)

  type Program = seq<Action>

  /** One critical section. */
  function Section(m: Mutex): Program { [Lock(m), Unlock(m)] }

  /** One critical section for each mutex in turn. */
  function Sections(ms: seq<Mutex>): Program {
    if ms == [] then [] else Section(ms[0]) + Sections(ms[1..])
  }

  /** Operations, with the data that decides which mutexes they take and how often. */
  datatype Operation =
    | EntityOperation                              // any single operation of EntityCache, and GetPoolByID and the like
    | KeyedOperation(m: Mutex)                     // Set, Get, Delete, List, AsMap or Update of one keyed cache
    | SetCredentials(cache: Mutex)                 // Set, then UpdateCredentialsInAffectedEntities
    | UpdateCredentialsUsingEndpoint(updated: nat) // Update, then one refresh for each updated entry
    | GetEntity(lookup: seq<Mutex>)                // entity read, then at most one credential lookup
    | GetAllEntities(lookups: seq<Mutex>)          // entity reads, then a lookup for each of a known forge
    | EntityRateLimit(lookups: seq<Mutex>)         // GetEntity, then GetForgeCredentials
    | GetEntityInstances                           // GetEntityPools, then GetAllInstancesCache
    | SetEndpoint(updated: nat)                    // endpoint cache, then UpdateCredentialsUsingEndpoint
    | GetEntityForInstance(entityReads: nat, lookup: seq<Mutex>) // instance, pool or scale set, entity, credentials; it stops at the first miss

  function Repeat(m: Mutex, n: nat): seq<Mutex> {
    seq(n, i => m)
  }

  function Body(op: Operation): Program {
    match op
    case EntityOperation => Section(EntityMutex)
    case KeyedOperation(m) => Section(m)
    case SetCredentials(m) => Section(m) + Section(EntityMutex)
    case UpdateCredentialsUsingEndpoint(n) => Section(GiteaMutex) + Sections(Repeat(EntityMutex, n))
    case GetEntity(ms) => Section(EntityMutex) + Sections(ms)
    case GetAllEntities(ms) => Section(EntityMutex) + Sections(ms)
    case EntityRateLimit(ms) => Section(EntityMutex) + Sections(ms)
    case GetEntityInstances => Section(EntityMutex) + Section(InstanceMutex)
    case SetEndpoint(n) => Section(EndpointMutex) + (Section(GiteaMutex) + Sections(Repeat(EntityMutex, n)))
    case GetEntityForInstance(n, ms) => Section(InstanceMutex) + (Sections(Repeat(EntityMutex, n)) + Sections(ms))
  }

  /** At most one mutex is held at any point of the program. */
  predicate OneAtATime(p: Program) {
    p == [] || (|p| >= 2 && p[0].Lock? && p[1] == Unlock(p[0].m) && OneAtATime(p[2..]))
  }

  lemma {:induction false} OneAtATimeConcat(p: Program, q: Program)
    requires OneAtATime(p) && OneAtATime(q)
    ensures OneAtATime(p + q)
  {
    if p == [] {
      assert p + q == q;
    } else {
      OneAtATimeConcat(p[2..], q);
      assert (p + q)[2..] == p[2..] + q;
    }
  }

  lemma {:induction false} SectionsHoldOneAtATime(ms: seq<Mutex>)
    ensures OneAtATime(Sections(ms))
  {
    if ms != [] {
      SectionsHoldOneAtATime(ms[1..]);
      assert Sections(ms)[2..] == Sections(ms[1..]);
    }
  }

  lemma BodyHoldsOneAtATime(op: Operation)
    ensures OneAtATime(Body(op))
  {
    forall m ensures OneAtATime(Section(m)) {
      assert Section(m)[2..] == [];
    }
    forall ms ensures OneAtATime(Sections(ms)) {
      SectionsHoldOneAtATime(ms);
    }
    forall p, q | OneAtATime(p) && OneAtATime(q) ensures OneAtATime(p + q) {
      OneAtATimeConcat(p, q);
    }
  }

  /** How often the program takes the mutex. */
  function Takes(p: Program, m: Mutex): nat {
    if p == [] then 0 else (if p[0] == Lock(m) then 1 else 0) + Takes(p[1..], m)
  }

  lemma {:induction false} TakesConcat(p: Program, q: Program, m: Mutex)
    ensures Takes(p + q, m) == Takes(p, m) + Takes(q, m)
  {
    if p == [] {
      assert p + q == q;
    } else {
      TakesConcat(p[1..], q, m);
      assert (p + q)[1..] == p[1..] + q;
    }
  }

  lemma TakesSection(n: Mutex, m: Mutex)
    ensures Takes(Section(n), m) == if n == m then 1 else 0
  {
    assert Section(n)[1..] == [Unlock(n)] && Takes([Unlock(n)], m) == Takes([], m);
  }

  lemma {:induction false} TakesRepeated(n: Mutex, k: nat, m: Mutex)
    ensures Takes(Sections(Repeat(n, k)), m) == if n == m then k else 0
  {
    if k > 0 {
      assert Repeat(n, k)[0] == n && Repeat(n, k)[1..] == Repeat(n, k - 1);
      TakesConcat(Section(n), Sections(Repeat(n, k - 1)), m);
      TakesSection(n, m);
      TakesRepeated(n, k - 1, m);
    }
  }

  /** The entity mutex is taken once for each read of an entity and once for each copy to be refreshed. */
  lemma EntityMutexTaken(op: Operation)
    requires op.SetCredentials? ==> op.cache != EntityMutex
    ensures op.EntityOperation? || op.GetEntityInstances? || op.SetCredentials? ==> Takes(Body(op), EntityMutex) == 1
    ensures op.UpdateCredentialsUsingEndpoint? || op.SetEndpoint? ==>
              Takes(Body(op), EntityMutex) == op.updated && Takes(Body(op), GiteaMutex) == 1
    ensures op.SetEndpoint? ==> Takes(Body(op), EndpointMutex) == 1
  {
    match op
    case EntityOperation => TakesSection(EntityMutex, EntityMutex);
    case SetCredentials(n) =>
      TakesConcat(Section(n), Section(EntityMutex), EntityMutex);
      TakesSection(n, EntityMutex);
      TakesSection(EntityMutex, EntityMutex);
    case GetEntityInstances =>
      TakesConcat(Section(EntityMutex), Section(InstanceMutex), EntityMutex);
      TakesSection(EntityMutex, EntityMutex);
      TakesSection(InstanceMutex, EntityMutex);
    case UpdateCredentialsUsingEndpoint(k) => UpdateTakes(k, EntityMutex); UpdateTakes(k, GiteaMutex);
    case SetEndpoint(k) =>
      forall m ensures Takes(Body(op), m) == (if m == EndpointMutex then 1 else 0) + Takes(Body(UpdateCredentialsUsingEndpoint(k)), m) {
        TakesConcat(Section(EndpointMutex), Body(UpdateCredentialsUsingEndpoint(k)), m);
        TakesSection(EndpointMutex, m);
      }
      UpdateTakes(k, EntityMutex);
      UpdateTakes(k, GiteaMutex);
      UpdateTakes(k, EndpointMutex);
    case _ =>
  }

  lemma UpdateTakes(k: nat, m: Mutex)
    ensures Takes(Body(UpdateCredentialsUsingEndpoint(k)), m) ==
            if m == GiteaMutex then 1 else if m == EntityMutex then k else 0
  {
    TakesConcat(Section(GiteaMutex), Sections(Repeat(EntityMutex, k)), m);
    TakesSection(GiteaMutex, m);
    TakesRepeated(EntityMutex, k, m);
  }

  // ----- Any number of goroutines -----

  /** What each goroutine still has to do, and who holds each locked mutex. */
  datatype State = State(todo: map<int, Program>, holder: map<Mutex, int>)

  predicate CanStep(s: State, t: int) {
    t in s.todo && s.todo[t] != [] && (s.todo[t][0].Lock? ==> s.todo[t][0].m !in s.holder)
  }

  function Step(s: State, t: int): State
    requires CanStep(s, t)
  {
    var a := s.todo[t][0];
    State(s.todo[t := s.todo[t][1..]], if a.Lock? then s.holder[a.m := t] else s.holder - {a.m})
  }

  datatype Event = Start(t: int, op: Operation) | Run(t: int)

  predicate Enabled(s: State, ev: Event) {
    match ev
    case Start(t, _) => t !in s.todo || s.todo[t] == []
    case Run(t) => CanStep(s, t)
  }

  function Next(s: State, ev: Event): State
    requires Enabled(s, ev)
  {
    match ev
    case Start(t, op) => s.(todo := s.todo[t := Body(op)])
    case Run(t) => Step(s, t)
  }

  /** A goroutine is outside all critical sections, or about to leave the one it is in. */
  ghost predicate Disciplined(s: State, t: int)
    requires t in s.todo
  {
    var p := s.todo[t];
    || (OneAtATime(p) && forall m :: m in s.holder ==> s.holder[m] != t)
    || (&& p != [] && p[0].Unlock? && OneAtATime(p[1..])
        && p[0].m in s.holder && s.holder[p[0].m] == t
        && forall m :: m in s.holder && s.holder[m] == t ==> m == p[0].m)
  }

  ghost predicate Sound(s: State) {
    && (forall t :: t in s.todo ==> Disciplined(s, t))
    && (forall m :: m in s.holder ==> s.holder[m] in s.todo)
  }

  lemma StepKeepsSound(s: State, ev: Event)
    requires Sound(s) && Enabled(s, ev)
    ensures Sound(Next(s, ev))
  {
    var s' := Next(s, ev);
    if ev.Start? { BodyHoldsOneAtATime(ev.op); }
    forall t | t in s'.todo ensures Disciplined(s', t) {
      assert t in s.todo ==> Disciplined(s, t);
      assert ev.t in s.todo ==> Disciplined(s, ev.t);
      if ev.Run? && s.todo[ev.t][0].Lock? {
        assert s.todo[ev.t][1..][1..] == s.todo[ev.t][2..];
      }
    }
  }

  ghost predicate Finished(s: State) {
    forall t :: t in s.todo ==> s.todo[t] == []
  }

  ghost predicate IsRun(s: State, evs: seq<Event>)
    decreases |evs|
  {
    evs == [] || (Enabled(s, evs[0]) && IsRun(Next(s, evs[0]), evs[1..]))
  }

  ghost function Final(s: State, evs: seq<Event>): State
    requires IsRun(s, evs)
    decreases |evs|
  {
    if evs == [] then s else Final(Next(s, evs[0]), evs[1..])
  }

  lemma EmptyIsSound()
    ensures Sound(State(map[], map[]))
  {
  }

  /** No reachable state is a deadlock: while any operation is unfinished, some goroutine can take its next step. */
  lemma {:induction false} NoDeadlock(s: State, evs: seq<Event>)
    requires Sound(s) && IsRun(s, evs)
    ensures Finished(Final(s, evs)) || exists t :: CanStep(Final(s, evs), t)
    decreases |evs|
  {
    if evs != [] {
      StepKeepsSound(s, evs[0]);
      NoDeadlock(Next(s, evs[0]), evs[1..]);
    } else if !Finished(s) {
      var t :| t in s.todo && s.todo[t] != [];
      var a := s.todo[t][0];
      assert Disciplined(s, t);
      if a.Lock? && a.m in s.holder {
        var u := s.holder[a.m];
        assert Disciplined(s, u);
        assert CanStep(s, u);
      } else {
        assert CanStep(s, t);
      }
    }
  }

  // ----- Completion -----

  ghost function Work(todo: map<int, Program>): nat
    decreases |todo|
  {
    if t :| t in todo then
      assert (todo - {t}).Keys == todo.Keys - {t};
      |todo[t]| + Work(todo - {t})
    else 0
  }

  lemma {:induction false} WorkWithout(todo: map<int, Program>, t: int)
    requires t in todo
    ensures Work(todo) == |todo[t]| + Work(todo - {t})
    decreases |todo|
  {
    var u :| u in todo && Work(todo) == |todo[u]| + Work(todo - {u});
    if u != t {
      assert (todo - {u}).Keys == todo.Keys - {u};
      WorkWithout(todo - {u}, t);
      assert (todo - {t}).Keys == todo.Keys - {t};
      WorkWithout(todo - {t}, u);
      assert todo - {u} - {t} == todo - {t} - {u};
    }
  }

  ghost predicate OnlyRuns(evs: seq<Event>) {
    forall i :: 0 <= i < |evs| ==> evs[i].Run?
  }

  /** Started operations complete: a run without new starts takes at most as many steps as there is work, and uses up that work. */
  lemma {:induction false} RunsComplete(s: State, evs: seq<Event>)
    requires IsRun(s, evs) && OnlyRuns(evs)
    ensures Work(Final(s, evs).todo) == Work(s.todo) - |evs|
    decreases |evs|
  {
    if evs != [] {
      var s' := Next(s, evs[0]);
      var t := evs[0].t;
      WorkWithout(s.todo, t);
      WorkWithout(s'.todo, t);
      assert s'.todo - {t} == s.todo - {t};
      RunsComplete(s', evs[1..]);
    }
  }

  /** The comment in the source is right: nesting the two critical sections in opposite orders can deadlock. */
  lemma NestingDeadlocks()
    ensures var s := State(map[1 := [Lock(GithubMutex), Lock(EntityMutex), Unlock(EntityMutex), Unlock(GithubMutex)],
                               2 := [Lock(EntityMutex), Lock(GithubMutex), Unlock(GithubMutex), Unlock(EntityMutex)]], map[]);
            && CanStep(s, 1) && CanStep(Step(s, 1), 2)
            && var s' := Step(Step(s, 1), 2);
            && !Finished(s') && forall t :: !CanStep(s', t)
  {
    var s := State(map[1 := [Lock(GithubMutex), Lock(EntityMutex), Unlock(EntityMutex), Unlock(GithubMutex)],
                       2 := [Lock(EntityMutex), Lock(GithubMutex), Unlock(GithubMutex), Unlock(EntityMutex)]], map[]);
    var s' := Step(Step(s, 1), 2);
    assert 1 in s'.todo && s'.todo[1][0] == Lock(EntityMutex);
    assert 2 in s'.todo && s'.todo[2][0] == Lock(GithubMutex);
  }
}
