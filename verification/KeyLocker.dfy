/**
 The per-key locker of locking/local_locker.go as a state machine.

 Any number of goroutines run TryLock, Lock, LockWithContext, Unlock, Delete and
 LockedBy. Each shared access of those bodies (a sync.Map operation, a mutex
 operation, a read or write of `ident`, an atomic operation on `isLocked`) is one
 step, and steps of different goroutines interleave freely.
 */
module KeyLocker {

  type Key = string
  type Tid = int
  type ObjId = int

  /** One lockWithIdent object. `held` is the state of its sync.Mutex. */
  datatype LockObj = LockObj(held: bool, ident: string, isLocked: bool)

  const FRESH := LockObj(false, "", false)

  datatype Mode = Try | Block | WithContext

  /** The statement a goroutine executes next. */
  datatype Pc =
    | Idle
    | Waiting(key: Key, ident: string)                           // LockWithContext, between two attempts
    | Acquire(key: Key, obj: ObjId, ident: string, mode: Mode)   // mux.TryLock() or mux.Lock()
    | WriteIdent(key: Key, obj: ObjId, ident: string)            // ident = identifier
    | StoreFlag(key: Key, obj: ObjId, ident: string)             // isLocked.Store(true)
    | ClearIdent(key: Key, obj: ObjId, remove: bool, was: string) // ident = ""; `was` is history: the caller's own identifier
    | SwapFlag(key: Key, obj: ObjId, remove: bool)               // isLocked.CompareAndSwap(true, false)
    | Release(key: Key, obj: ObjId, remove: bool)                // mux.Unlock()
    | Drop(key: Key)                                             // muxes.Delete(key)
    | Peek(obj: ObjId)                                           // LockedBy, first read of ident
    | PeekAgain(obj: ObjId)                                      // LockedBy, second read of ident

  /**
   Objects are numbered in order of allocation; `top` is the next number.
   `holds` is history: (t, k) maps to an identifier from the moment t's lock
   operation on k completes until t calls Unlock(k). `owner` is history too: the
   goroutine whose mutex operation locked the object. `crashed` records Go's fatal
   error for unlocking an unlocked mutex.
   */
  datatype State = State(
    muxes: map<Key, ObjId>,
    objs: map<ObjId, LockObj>,
    top: ObjId,
    threads: map<Tid, Pc>,
    holds: map<(Tid, Key), string>,
    owner: map<ObjId, Tid>,
    crashed: bool)

  const INITIAL := State(map[], map[], 0, map[], map[], map[], false)

  function PcOf(s: State, t: Tid): Pc {
    if t in s.threads then s.threads[t] else Idle
  }

  function Obj(s: State, o: ObjId): LockObj {
    if o in s.objs then s.objs[o] else FRESH
  }

  predicate References(p: Pc) {
    !p.Idle? && !p.Waiting? && !p.Drop?
  }

  datatype Event =
    | StartLock(t: Tid, key: Key, ident: string, mode: Mode)
    | StartUnlock(t: Tid, key: Key, remove: bool)
    | StartDelete(t: Tid, key: Key)
    | StartLockedBy(t: Tid, key: Key)
    | Advance(t: Tid)     // execute the statement at the goroutine's pc
    | TryFails(t: Tid)    // mux.TryLock() returns false
    | Tick(t: Tid)        // LockWithContext: the ticker fires
    | Cancel(t: Tid)      // LockWithContext: the context is done

  predicate Enabled(s: State, e: Event) {
    var p := PcOf(s, e.t);
    && !s.crashed
    && match e
       case Advance(_) => !p.Idle? && !p.Waiting? && (p.Acquire? ==> !Obj(s, p.obj).held)
       case TryFails(_) => p.Acquire? && p.mode != Block
       case Tick(_) => p.Waiting?
       case Cancel(_) => p.Waiting?
       case _ => p.Idle?
  }

  function AfterUnlock(key: Key, remove: bool): Pc {
    if remove then Drop(key) else Idle
  }

  /** The statement at p, executed on the lock object it refers to: the next pc and the object afterwards. */
  function Statement(p: Pc, x: LockObj): (Pc, LockObj) {
    match p
    case Acquire(key, o, ident, _) => (WriteIdent(key, o, ident), x.(held := true))
    case WriteIdent(key, o, ident) => (StoreFlag(key, o, ident), x.(ident := ident))
    case StoreFlag(key, o, ident) => (Idle, x.(isLocked := true))
    case ClearIdent(key, o, remove, _) => (SwapFlag(key, o, remove), x.(ident := ""))
    case SwapFlag(key, o, remove) =>
      if x.isLocked then (Release(key, o, remove), x.(isLocked := false)) else (AfterUnlock(key, remove), x)
    case Release(key, o, remove) => (AfterUnlock(key, remove), x.(held := false))
    case Peek(o) => (if x.ident == "" then Idle else PeekAgain(o), x)
    case _ => (Idle, x)
  }

  function Execute(s: State, t: Tid): State
    requires Enabled(s, Advance(t))
  {
    var p := PcOf(s, t);
    if p.Drop? then
      s.(threads := s.threads[t := Idle], muxes := s.muxes - {p.key})
    else
      var (p', x) := Statement(p, Obj(s, p.obj));
      s.(threads := s.threads[t := p'],
         objs := s.objs[p.obj := x],
         owner := if p.Acquire? then s.owner[p.obj := t] else if p.Release? then s.owner - {p.obj} else s.owner,
         holds := if p.StoreFlag? then s.holds[(t, p.key) := p.ident] else s.holds,
         crashed := p.Release? && !Obj(s, p.obj).held)
  }

  /** The lock object of `key` after muxes.LoadOrStore(key, &lockWithIdent{}). */
  function Loaded(s: State, key: Key): ObjId {
    if key in s.muxes then s.muxes[key] else s.top
  }

  function Entered(s: State, e: Event): Pc
    requires Enabled(s, e) && !e.Advance?
  {
    var p := PcOf(s, e.t);
    match e
    case StartLock(_, key, ident, mode) => Acquire(key, Loaded(s, key), ident, mode)
    case Tick(_) => Acquire(p.key, Loaded(s, p.key), p.ident, WithContext)
    case StartUnlock(t, key, remove) =>
      var was := if (t, key) in s.holds then s.holds[(t, key)] else "";
      if key in s.muxes then ClearIdent(key, s.muxes[key], remove, was) else Idle
    case StartDelete(_, key) => Drop(key)
    case StartLockedBy(_, key) => if key in s.muxes then Peek(s.muxes[key]) else Idle
    case TryFails(_) => if p.mode == Try then Idle else Waiting(p.key, p.ident)
    case _ => Idle
  }

  function Next(s: State, e: Event): State
    requires Enabled(s, e)
  {
    if e.Advance? then Execute(s, e.t)
    else
      var p' := Entered(s, e);
      var stores := p'.Acquire? && p'.key !in s.muxes;
      s.(threads := s.threads[e.t := p'],
         muxes := if stores then s.muxes[p'.key := s.top] else s.muxes,
         top := if stores then s.top + 1 else s.top,
         holds := if e.StartUnlock? then s.holds - {(e.t, e.key)} else s.holds)
  }

  /** A run is any sequence of enabled events. */
  ghost predicate IsRun(s: State, es: seq<Event>)
    decreases |es|
  {
    es == [] || (Enabled(s, es[0]) && IsRun(Next(s, es[0]), es[1..]))
  }

  ghost function Final(s: State, es: seq<Event>): State
    requires IsRun(s, es)
    decreases |es|
  {
    if es == [] then s else Final(Next(s, es[0]), es[1..])
  }

  lemma OtherPcsKept(s: State, e: Event)
    requires Enabled(s, e)
    ensures forall t :: t != e.t ==> PcOf(Next(s, e), t) == PcOf(s, t)
  {
  }

  // ----- Every interleaving: who accounts for a locked mutex -----

  /** The goroutine has the mutex but the flag does not say so: just acquired, or about to unlock. */
  predicate Claims(p: Pc, o: ObjId) {
    (p.WriteIdent? || p.StoreFlag? || p.Release?) && p.obj == o
  }

  /** The goroutines that have the mutex of `o` while the flag is clear. */
  ghost function Claimants(s: State, o: ObjId): set<Tid> {
    set t | t in s.threads && Claims(s.threads[t], o)
  }

  function Count(b: bool): nat {
    if b then 1 else 0
  }

  /** Unallocated numbers are used nowhere. */
  ghost predicate Allocated(s: State) {
    && (forall k <- s.muxes :: s.muxes[k] < s.top)
    && (forall o <- s.objs :: o < s.top)
    && (forall t :: References(PcOf(s, t)) ==> PcOf(s, t).obj < s.top)
  }

  /** A locked mutex is accounted for by exactly one party, an unlocked one by none. */
  ghost predicate Accounted(s: State) {
    && !s.crashed
    && forall o :: |Claimants(s, o)| + Count(Obj(s, o).isLocked) == Count(Obj(s, o).held)
  }

  lemma ClaimantsWithout(s: State, t: Tid, o: ObjId)
    ensures |Claimants(s, o) - {t}| == |Claimants(s, o)| - Count(Claims(PcOf(s, t), o))
  {
    if Claims(PcOf(s, t), o) {
      assert t in Claimants(s, o);
    } else {
      assert t !in Claimants(s, o);
      assert Claimants(s, o) - {t} == Claimants(s, o);
    }
  }

  lemma ClaimantsOfStep(s: State, s': State, t: Tid, o: ObjId)
    requires forall u :: u != t ==> PcOf(s', u) == PcOf(s, u)
    ensures |Claimants(s', o)| - Count(Claims(PcOf(s', t), o)) == |Claimants(s, o)| - Count(Claims(PcOf(s, t), o))
  {
    forall u | u != t
      ensures u in Claimants(s, o) <==> u in Claimants(s', o)
    {
      assert PcOf(s', u) == PcOf(s, u);
    }
    assert Claimants(s', o) - {t} == Claimants(s, o) - {t};
    ClaimantsWithout(s, t, o);
    ClaimantsWithout(s', t, o);
  }

  /** Read off the count: a claimant is alone, and the flag is clear while it claims. */
  lemma ClaimantIsAlone(s: State, t: Tid, o: ObjId)
    requires Accounted(s) && Claims(PcOf(s, t), o)
    ensures Obj(s, o).held && !Obj(s, o).isLocked
    ensures Claimants(s, o) == {t}
  {
    assert t in Claimants(s, o);
    assert |Claimants(s, o) - {t}| == |Claimants(s, o)| - 1;
  }

  lemma StepAccountsFor(s: State, e: Event, o: ObjId)
    requires Accounted(s) && Enabled(s, e)
    ensures var s' := Next(s, e);
            |Claimants(s', o)| + Count(Obj(s', o).isLocked) == Count(Obj(s', o).held)
  {
    OtherPcsKept(s, e);
    ClaimantsOfStep(s, Next(s, e), e.t, o);
    if Claims(PcOf(s, e.t), o) {
      ClaimantIsAlone(s, e.t, o);
    }
  }

  lemma StepKeepsAccounted(s: State, e: Event)
    requires Accounted(s) && Enabled(s, e)
    ensures Accounted(Next(s, e))
  {
    if e.Advance? && PcOf(s, e.t).Release? {
      ClaimantIsAlone(s, e.t, PcOf(s, e.t).obj);
    }
    forall o
      ensures var s' := Next(s, e);
              |Claimants(s', o)| + Count(Obj(s', o).isLocked) == Count(Obj(s', o).held)
    {
      StepAccountsFor(s, e, o);
    }
  }

  /**
   In every interleaving, with anyone unlocking or deleting anything at any time, a
   mutex is locked exactly when one party accounts for it: a goroutine that acquired
   and has not set the flag, the flag itself, or a goroutine that won the swap and
   has not unlocked. In particular mux.Unlock never meets an unlocked mutex.
   */
  lemma {:induction false} EveryRunAccountsForEachMutex(s: State, es: seq<Event>)
    requires Accounted(s) && IsRun(s, es)
    ensures Accounted(Final(s, es))
    decreases |es|
  {
    if es != [] {
      StepKeepsAccounted(s, es[0]);
      EveryRunAccountsForEachMutex(Next(s, es[0]), es[1..]);
    }
  }

  // ----- Disciplined runs: mutual exclusion per key -----

  predicate Acquiring(p: Pc) { p.Acquire? || p.WriteIdent? || p.StoreFlag? }

  predicate Unlocking(p: Pc) { p.ClearIdent? || p.SwapFlag? }

  /** Dropping the map entry of k disturbs nobody: no holder of k and nobody on the way to its lock object. */
  ghost predicate Quiet(s: State, k: Key) {
    k in s.muxes ==>
      && (forall t :: (t, k) !in s.holds)
      && (forall t :: Acquiring(PcOf(s, t)) ==> PcOf(s, t).obj != s.muxes[k])
  }

  /** A key with a map entry is unlocked by its holder only, and a map entry is dropped only when that is quiet. */
  ghost predicate Disciplined(s: State, e: Event) {
    match e
    case StartUnlock(t, k, _) => (t, k) in s.holds || k !in s.muxes
    case Advance(t) => PcOf(s, t).Drop? ==> Quiet(s, PcOf(s, t).key)
    case _ => true
  }

  ghost predicate IsDisciplinedRun(s: State, es: seq<Event>)
    decreases |es|
  {
    es == [] || (Enabled(s, es[0]) && Disciplined(s, es[0]) && IsDisciplinedRun(Next(s, es[0]), es[1..]))
  }

  predicate Owns(s: State, t: Tid, o: ObjId) {
    o in s.owner && s.owner[o] == t
  }

  ghost predicate LinkedObjects(s: State) {
    && (forall k, k' :: k in s.muxes && k' in s.muxes && s.muxes[k] == s.muxes[k'] ==> k == k')
    && (forall t :: Acquiring(PcOf(s, t)) ==>
          PcOf(s, t).key in s.muxes && s.muxes[PcOf(s, t).key] == PcOf(s, t).obj)
  }

  /** What a recorded hold guarantees: the caller owns the key's lock object and its identifier is on display. */
  ghost predicate HoldBacked(s: State, t: Tid, k: Key)
    requires (t, k) in s.holds
  {
    && k in s.muxes
    && Owns(s, t, s.muxes[k])
    && Obj(s, s.muxes[k]) == LockObj(true, s.holds[(t, k)], true)
    && !(Unlocking(PcOf(s, t)) && PcOf(s, t).obj == s.muxes[k])
  }

  /** What a goroutine inside an operation on a locked object guarantees. */
  ghost predicate PcBacked(s: State, t: Tid) {
    var p := PcOf(s, t);
    && (p.WriteIdent? ==> Owns(s, t, p.obj) && Obj(s, p.obj) == LockObj(true, "", false))
    && (p.StoreFlag? ==> Owns(s, t, p.obj) && Obj(s, p.obj) == LockObj(true, p.ident, false))
    && (p.ClearIdent? ==> Owns(s, t, p.obj) && Obj(s, p.obj) == LockObj(true, p.was, true))
    && (p.SwapFlag? ==> Owns(s, t, p.obj) && Obj(s, p.obj) == LockObj(true, "", true))
    && (p.Release? ==> Owns(s, t, p.obj) && Obj(s, p.obj) == LockObj(true, "", false))
  }

  /** A locked object has an owner that is holding its key or is inside an operation on it. */
  ghost predicate ObjectBacked(s: State, o: ObjId) {
    if Obj(s, o).held then
      && o in s.owner
      && (|| Claims(PcOf(s, s.owner[o]), o)
          || (Unlocking(PcOf(s, s.owner[o])) && PcOf(s, s.owner[o]).obj == o)
          || (exists k :: (s.owner[o], k) in s.holds && k in s.muxes && s.muxes[k] == o))
    else Obj(s, o) == FRESH
  }

  ghost predicate Exclusive(s: State) {
    && !s.crashed
    && Allocated(s)
    && LinkedObjects(s)
    && (forall t, k :: (t, k) in s.holds ==> HoldBacked(s, t, k))
    && (forall t :: PcBacked(s, t))
    && (forall o :: ObjectBacked(s, o))
  }

  lemma StepKeepsAllocated(s: State, e: Event)
    requires Allocated(s) && Enabled(s, e)
    ensures Allocated(Next(s, e))
  {
    OtherPcsKept(s, e);
    assert References(PcOf(s, e.t)) ==> PcOf(s, e.t).obj < s.top;
  }

  lemma StepKeepsLinked(s: State, e: Event)
    requires Exclusive(s) && Enabled(s, e) && Disciplined(s, e)
    ensures LinkedObjects(Next(s, e))
  {
    OtherPcsKept(s, e);
  }

  lemma StepKeepsHold(s: State, e: Event, t: Tid, k: Key)
    requires Exclusive(s) && Enabled(s, e) && Disciplined(s, e)
    requires (t, k) in Next(s, e).holds
    ensures HoldBacked(Next(s, e), t, k)
  {
    OtherPcsKept(s, e);
    assert PcBacked(s, e.t);
    assert (t, k) in s.holds ==> HoldBacked(s, t, k);
  }

  lemma StepKeepsOwnPc(s: State, e: Event)
    requires Exclusive(s) && Enabled(s, e) && Disciplined(s, e)
    ensures PcBacked(Next(s, e), e.t)
  {
    assert PcBacked(s, e.t);
    if e.StartUnlock? && (e.t, e.key) in s.holds { assert HoldBacked(s, e.t, e.key); }
    if PcOf(s, e.t).Acquire? { assert ObjectBacked(s, PcOf(s, e.t).obj); }
  }

  lemma StepKeepsOtherPc(s: State, e: Event, t: Tid)
    requires Exclusive(s) && Enabled(s, e) && Disciplined(s, e) && t != e.t
    ensures PcBacked(Next(s, e), t)
  {
    OtherPcsKept(s, e);
    assert PcBacked(s, e.t) && PcBacked(s, t);
  }

  lemma StepKeepsObject(s: State, e: Event, o: ObjId)
    requires Exclusive(s) && Enabled(s, e) && Disciplined(s, e)
    ensures ObjectBacked(Next(s, e), o)
  {
    OtherPcsKept(s, e);
    assert PcBacked(s, e.t);
    assert ObjectBacked(s, o);
  }

  lemma StepKeepsExclusive(s: State, e: Event)
    requires Exclusive(s) && Enabled(s, e) && Disciplined(s, e)
    ensures Exclusive(Next(s, e))
  {
    var s' := Next(s, e);
    assert PcBacked(s, e.t);
    StepKeepsAllocated(s, e);
    StepKeepsLinked(s, e);
    forall t, k | (t, k) in s'.holds ensures HoldBacked(s', t, k) { StepKeepsHold(s, e, t, k); }
    StepKeepsOwnPc(s, e);
    forall t | t != e.t ensures PcBacked(s', t) { StepKeepsOtherPc(s, e, t); }
    forall o ensures ObjectBacked(s', o) { StepKeepsObject(s, e, o); }
  }

  lemma InitialIsSound()
    ensures Accounted(INITIAL) && Exclusive(INITIAL)
  {
    forall o ensures |Claimants(INITIAL, o)| == 0 { assert Claimants(INITIAL, o) == {}; }
  }

  /**
   When only holders unlock and entries are dropped only when quiet, every run has
   at most one holder per key, and that holder's identifier is the one on display.
   */
  lemma {:induction false} DisciplinedRunIsExclusive(s: State, es: seq<Event>)
    requires Exclusive(s) && IsDisciplinedRun(s, es)
    ensures IsRun(s, es) && Exclusive(Final(s, es))
    ensures var s' := Final(s, es);
            && (forall t, u, k :: (t, k) in s'.holds && (u, k) in s'.holds ==> t == u)
            && (forall t, k :: (t, k) in s'.holds ==> k in s'.muxes && Obj(s', s'.muxes[k]).ident == s'.holds[(t, k)])
    decreases |es|
  {
    if es == [] {
      forall t, u, k | (t, k) in s.holds && (u, k) in s.holds ensures t == u {
        assert HoldBacked(s, t, k) && HoldBacked(s, u, k);
      }
    } else {
      StepKeepsExclusive(s, es[0]);
      DisciplinedRunIsExclusive(Next(s, es[0]), es[1..]);
    }
  }

  /** A non-empty identifier on a lock object names its present owner: a holder, or a goroutine whose call is under way. */
  lemma IdentNamesOwner(s: State, o: ObjId)
    requires Exclusive(s) && Obj(s, o).ident != ""
    ensures o in s.owner
    ensures var t := s.owner[o];
            || (exists k :: (t, k) in s.holds && k in s.muxes && s.muxes[k] == o && s.holds[(t, k)] == Obj(s, o).ident)
            || (PcOf(s, t).StoreFlag? && PcOf(s, t).obj == o && PcOf(s, t).ident == Obj(s, o).ident)
            || (PcOf(s, t).ClearIdent? && PcOf(s, t).obj == o && PcOf(s, t).was == Obj(s, o).ident)
  {
    assert ObjectBacked(s, o);
    var t := s.owner[o];
    assert PcBacked(s, t);
    if k :| (t, k) in s.holds && k in s.muxes && s.muxes[k] == o {
      assert HoldBacked(s, t, k);
    }
  }

  predicate Drops(s: State, e: Event, k: Key) {
    e.Advance? && PcOf(s, e.t) == Drop(k)
  }

  ghost predicate NeverDrops(s: State, es: seq<Event>, k: Key)
    requires IsRun(s, es)
    decreases |es|
  {
    es == [] || (!Drops(s, es[0], k) && NeverDrops(Next(s, es[0]), es[1..], k))
  }

  /** Without a removal of the key, the lock object it maps to never changes, whatever else happens. */
  lemma {:induction false} LockObjectIsStable(s: State, es: seq<Event>, k: Key)
    requires IsRun(s, es) && k in s.muxes && NeverDrops(s, es, k)
    ensures k in Final(s, es).muxes && Final(s, es).muxes[k] == s.muxes[k]
    decreases |es|
  {
    if es != [] {
      LockObjectIsStable(Next(s, es[0]), es[1..], k);
    }
  }

  // ----- Discipline of the callers alone -----

  /** Callers never ask for a removal, and unlock a key that has an entry only while they hold it. */
  predicate WellCalled(s: State, e: Event) {
    match e
    case StartUnlock(t, k, remove) => !remove && ((t, k) in s.holds || k !in s.muxes)
    case StartDelete(_, _) => false
    case _ => true
  }

  ghost predicate IsWellCalledRun(s: State, es: seq<Event>)
    decreases |es|
  {
    es == [] || (Enabled(s, es[0]) && WellCalled(s, es[0]) && IsWellCalledRun(Next(s, es[0]), es[1..]))
  }

  /** The goroutine is inside an Unlock of k called with this `remove`, not yet at its end. */
  predicate InUnlock(p: Pc, k: Key, remove: bool) {
    || ((p.ClearIdent? || p.SwapFlag? || p.Release?) && p.key == k && p.remove == remove)
    || (p == Drop(k) && remove)
  }

  /** The goroutine will not drop any entry in its present call. */
  predicate Harmless(p: Pc) {
    !p.Drop? && (p.ClearIdent? || p.SwapFlag? || p.Release? ==> !p.remove)
  }

  lemma WellCalledStep(s: State, e: Event)
    requires Exclusive(s) && Enabled(s, e) && WellCalled(s, e) && forall t :: Harmless(PcOf(s, t))
    ensures Disciplined(s, e) && Exclusive(Next(s, e)) && forall t :: Harmless(PcOf(Next(s, e), t))
    ensures forall k :: k in s.muxes ==> k in Next(s, e).muxes && Next(s, e).muxes[k] == s.muxes[k]
  {
    assert Harmless(PcOf(s, e.t));
    StepKeepsExclusive(s, e);
    OtherPcsKept(s, e);
  }

  lemma {:induction false} WellCalledRun(s: State, es: seq<Event>)
    requires Exclusive(s) && (forall t :: Harmless(PcOf(s, t))) && IsWellCalledRun(s, es)
    ensures IsRun(s, es) && IsDisciplinedRun(s, es) && Exclusive(Final(s, es)) && forall t :: Harmless(PcOf(Final(s, es), t))
    ensures forall k :: k in s.muxes ==> k in Final(s, es).muxes && Final(s, es).muxes[k] == s.muxes[k]
    decreases |es|
  {
    if es != [] {
      WellCalledStep(s, es[0]);
      WellCalledRun(Next(s, es[0]), es[1..]);
    }
  }

  lemma {:induction false} WellCalledSplit(s: State, es: seq<Event>, i: nat)
    requires i <= |es| && IsWellCalledRun(s, es)
    ensures IsWellCalledRun(s, es[..i]) && IsRun(s, es[..i]) && IsRun(s, es)
    ensures IsWellCalledRun(Final(s, es[..i]), es[i..]) && IsRun(Final(s, es[..i]), es[i..])
    ensures Final(Final(s, es[..i]), es[i..]) == Final(s, es)
    decreases |es|
  {
    if i == 0 {
      assert es[..0] == [] && es[0..] == es;
      if es != [] { WellCalledSplit(Next(s, es[0]), es[1..], 0); }
    } else {
      WellCalledSplit(Next(s, es[0]), es[1..], i - 1);
      assert es[..i][1..] == es[1..][..i - 1] && es[1..][i - 1..] == es[i..];
    }
  }

  /**
   Said of the calls alone: as long as nobody calls Delete or Unlock with remove, and a
   key that has an entry is unlocked only by its holder, in every run of a new locker
   each key has at most one holder, whose identifier is on display, and a key keeps the
   lock object it first got.
   */
  lemma WellCalledLockerIsExclusive(es: seq<Event>, i: nat)
    requires IsWellCalledRun(INITIAL, es) && i <= |es|
    ensures IsRun(INITIAL, es) && IsRun(INITIAL, es[..i])
    ensures var s := Final(INITIAL, es);
            && (forall t, u, k :: (t, k) in s.holds && (u, k) in s.holds ==> t == u)
            && (forall t, k :: (t, k) in s.holds ==> k in s.muxes && Obj(s, s.muxes[k]).ident == s.holds[(t, k)])
    ensures var (before, s) := (Final(INITIAL, es[..i]), Final(INITIAL, es));
            forall k :: k in before.muxes ==> k in s.muxes && s.muxes[k] == before.muxes[k]
  {
    InitialIsSound();
    WellCalledRun(INITIAL, es);
    DisciplinedRunIsExclusive(INITIAL, es);
    WellCalledSplit(INITIAL, es, i);
    WellCalledRun(INITIAL, es[..i]);
    WellCalledRun(Final(INITIAL, es[..i]), es[i..]);
  }

  /** During the run, t executes muxes.Delete(k). */
  ghost predicate DropsBy(s: State, es: seq<Event>, t: Tid, k: Key)
    requires IsRun(s, es)
    decreases |es|
  {
    es != [] && ((es[0].t == t && Drops(s, es[0], k)) || DropsBy(Next(s, es[0]), es[1..], t, k))
  }

  /** t makes no new call during the run. */
  ghost predicate SameCall(es: seq<Event>, t: Tid) {
    forall i :: 0 <= i < |es| ==> es[i].t == t ==> !es[i].StartLock? && !es[i].StartUnlock? && !es[i].StartDelete? && !es[i].StartLockedBy?
  }

  lemma {:induction false} IdleDropsNothing(s: State, es: seq<Event>, t: Tid, k: Key)
    requires IsRun(s, es) && SameCall(es, t) && PcOf(s, t).Idle?
    ensures !DropsBy(s, es, t, k) && PcOf(Final(s, es), t).Idle?
    decreases |es|
  {
    if es != [] {
      assert es[0].t != t;
      assert forall i :: 0 <= i < |es| - 1 ==> es[1..][i] == es[i + 1];
      OtherPcsKept(s, es[0]);
      IdleDropsNothing(Next(s, es[0]), es[1..], t, k);
    }
  }

  lemma {:induction false} UnlockRemovesFrom(s: State, es: seq<Event>, t: Tid, k: Key, remove: bool)
    requires IsRun(s, es) && SameCall(es, t) && InUnlock(PcOf(s, t), k, remove) && PcOf(Final(s, es), t).Idle?
    ensures DropsBy(s, es, t, k) <==> remove
    decreases |es|
  {
    var s1 := Next(s, es[0]);
    assert forall i :: 0 <= i < |es| - 1 ==> es[1..][i] == es[i + 1];
    OtherPcsKept(s, es[0]);
    if InUnlock(PcOf(s1, t), k, remove) {
      UnlockRemovesFrom(s1, es[1..], t, k, remove);
    } else {
      IdleDropsNothing(s1, es[1..], t, k);
    }
  }

  /** When an Unlock of a key with an entry has returned, it executed muxes.Delete exactly if it was called with remove. */
  lemma UnlockRemovesIff(s: State, t: Tid, k: Key, remove: bool, es: seq<Event>)
    requires Enabled(s, StartUnlock(t, k, remove)) && k in s.muxes
    requires IsRun(Next(s, StartUnlock(t, k, remove)), es) && SameCall(es, t)
    requires PcOf(Final(Next(s, StartUnlock(t, k, remove)), es), t).Idle?
    ensures DropsBy(Next(s, StartUnlock(t, k, remove)), es, t, k) <==> remove
  {
    UnlockRemovesFrom(Next(s, StartUnlock(t, k, remove)), es, t, k, remove);
  }

  /** When a Delete has returned, it executed muxes.Delete. */
  lemma DeleteRemoves(s: State, t: Tid, k: Key, es: seq<Event>)
    requires Enabled(s, StartDelete(t, k))
    requires IsRun(Next(s, StartDelete(t, k)), es) && SameCall(es, t)
    requires PcOf(Final(Next(s, StartDelete(t, k)), es), t).Idle?
    ensures DropsBy(Next(s, StartDelete(t, k)), es, t, k)
  {
    UnlockRemovesFrom(Next(s, StartDelete(t, k)), es, t, k, true);
  }

  /** The statement that executes muxes.Delete(k) removes that entry and no other. */
  lemma DropRemovesEntry(s: State, e: Event, k: Key)
    requires Enabled(s, e) && Drops(s, e, k)
    ensures Next(s, e).muxes == s.muxes - {k} && Next(s, e).objs == s.objs
  {
  }

  // ----- What a lock call returns -----

  /** The event by which a lock call of that mode gives up. */
  predicate GivesUp(e: Event, t: Tid, mode: Mode) {
    e.t == t && ((mode == Try && e.TryFails?) || (mode == WithContext && e.Cancel?))
  }

  ghost predicate GaveUp(es: seq<Event>, t: Tid, mode: Mode) {
    exists i :: 0 <= i < |es| && GivesUp(es[i], t, mode)
  }

  /** The goroutine is inside a lock call. */
  predicate InLock(p: Pc, k: Key, ident: string, mode: Mode) {
    || (p.Waiting? && p == Waiting(k, ident) && mode == WithContext)
    || (p.Acquire? && p.key == k && p.ident == ident && p.mode == mode)
    || ((p.WriteIdent? || p.StoreFlag?) && p.key == k && p.ident == ident)
  }

  lemma {:induction false} IdleKeepsHolds(s: State, es: seq<Event>, t: Tid, k: Key)
    requires IsRun(s, es) && SameCall(es, t) && PcOf(s, t).Idle?
    ensures (t, k) in Final(s, es).holds <==> (t, k) in s.holds
    ensures (t, k) in s.holds ==> Final(s, es).holds[(t, k)] == s.holds[(t, k)]
    ensures forall i :: 0 <= i < |es| ==> es[i].t != t
    decreases |es|
  {
    if es != [] {
      assert es[0].t != t;
      assert forall i :: 0 <= i < |es| - 1 ==> es[1..][i] == es[i + 1];
      OtherPcsKept(s, es[0]);
      IdleKeepsHolds(Next(s, es[0]), es[1..], t, k);
    }
  }

  lemma {:induction false} LockOutcomeFrom(s: State, es: seq<Event>, t: Tid, k: Key, ident: string, mode: Mode)
    requires IsRun(s, es) && SameCall(es, t) && InLock(PcOf(s, t), k, ident, mode) && (t, k) !in s.holds
    requires PcOf(Final(s, es), t).Idle?
    ensures (t, k) in Final(s, es).holds <==> !GaveUp(es, t, mode)
    ensures (t, k) in Final(s, es).holds ==> Final(s, es).holds[(t, k)] == ident
    decreases |es|
  {
    var s1, rest := Next(s, es[0]), es[1..];
    assert forall i :: 0 <= i < |rest| ==> rest[i] == es[i + 1];
    OtherPcsKept(s, es[0]);
    GaveUpFirst(es, t, mode);
    if InLock(PcOf(s1, t), k, ident, mode) {
      LockOutcomeFrom(s1, rest, t, k, ident, mode);
    } else {
      IdleKeepsHolds(s1, rest, t, k);
    }
  }

  lemma GaveUpFirst(es: seq<Event>, t: Tid, mode: Mode)
    requires es != []
    ensures GaveUp(es, t, mode) <==> GivesUp(es[0], t, mode) || GaveUp(es[1..], t, mode)
  {
    assert forall i :: 0 <= i < |es| - 1 ==> es[1..][i] == es[i + 1];
    if i :| 0 <= i < |es| && GivesUp(es[i], t, mode) {
      assert i > 0 ==> GivesUp(es[1..][i - 1], t, mode);
    }
    if i :| 0 <= i < |es[1..]| && GivesUp(es[1..][i], t, mode) {
      assert GivesUp(es[i + 1], t, mode);
    }
  }

  /**
   When a lock call has returned, the caller holds the key under the given identifier,
   unless a TryLock found the mutex taken or the context of a LockWithContext was done;
   a Lock returns only with the key.
   */
  lemma LockOutcome(s: State, t: Tid, k: Key, ident: string, mode: Mode, es: seq<Event>)
    requires Enabled(s, StartLock(t, k, ident, mode)) && (t, k) !in s.holds
    requires IsRun(Next(s, StartLock(t, k, ident, mode)), es) && SameCall(es, t)
    requires PcOf(Final(Next(s, StartLock(t, k, ident, mode)), es), t).Idle?
    ensures var s' := Final(Next(s, StartLock(t, k, ident, mode)), es);
            && ((t, k) in s'.holds <==> !GaveUp(es, t, mode))
            && ((t, k) in s'.holds ==> s'.holds[(t, k)] == ident)
            && (mode == Block ==> (t, k) in s'.holds)
  {
    LockOutcomeFrom(Next(s, StartLock(t, k, ident, mode)), es, t, k, ident, mode);
  }

  // ----- A removal that is not quiet can be followed by two holders -----

  /** Continuations that only execute statements, none of which drops a map entry. */
  ghost predicate Plain(s: State, es: seq<Event>)
    decreases |es|
  {
    es == [] || (es[0].Advance? && Enabled(s, es[0]) && !PcOf(s, es[0].t).Drop? && Plain(Next(s, es[0]), es[1..]))
  }

  lemma {:induction false} PlainIsDisciplined(s: State, es: seq<Event>)
    requires Plain(s, es)
    ensures IsDisciplinedRun(s, es) && IsRun(s, es)
    decreases |es|
  {
    if es != [] { PlainIsDisciplined(Next(s, es[0]), es[1..]); }
  }

  lemma {:induction false} DisciplinedConcat(s: State, es: seq<Event>, fs: seq<Event>)
    requires IsRun(s, es) && IsDisciplinedRun(s, es) && IsDisciplinedRun(Final(s, es), fs) && IsRun(Final(s, es), fs)
    ensures IsDisciplinedRun(s, es + fs) && IsRun(s, es + fs)
    ensures Final(s, es + fs) == Final(Final(s, es), fs)
    decreases |es|
  {
    if es == [] {
      assert es + fs == fs;
    } else {
      DisciplinedConcat(Next(s, es[0]), es[1..], fs);
      assert (es + fs)[1..] == es[1..] + fs;
    }
  }

  /** Statements that do not drop an entry commute with another goroutine's drop. */
  lemma DropCommutes(s: State, t: Tid, u: Tid)
    requires Enabled(s, Advance(t)) && PcOf(s, t).Drop?
    requires Enabled(s, Advance(u)) && !PcOf(s, u).Drop? && !Next(s, Advance(u)).crashed
    ensures Enabled(Next(s, Advance(t)), Advance(u)) && Enabled(Next(s, Advance(u)), Advance(t))
    ensures Next(Next(s, Advance(t)), Advance(u)) == Next(Next(s, Advance(u)), Advance(t))
  {
    var a := Next(Next(s, Advance(t)), Advance(u));
    var b := Next(Next(s, Advance(u)), Advance(t));
    assert a.threads == b.threads;
  }

  lemma {:induction false} DropCommutesWithPlain(s: State, t: Tid, es: seq<Event>)
    requires Enabled(s, Advance(t)) && PcOf(s, t).Drop? && Plain(s, es) && IsRun(s, es) && !Final(s, es).crashed
    ensures Plain(Next(s, Advance(t)), es) && IsRun(Next(s, Advance(t)), es)
    ensures Enabled(Final(s, es), Advance(t)) && PcOf(Final(s, es), t) == PcOf(s, t)
    ensures Final(Next(s, Advance(t)), es) == Next(Final(s, es), Advance(t))
    decreases |es|
  {
    if es != [] {
      var u := es[0].t;
      DropCommutes(s, t, u);
      OtherPcsKept(s, es[0]);
      DropCommutesWithPlain(Next(s, es[0]), t, es[1..]);
    }
  }

  /** How far w's lock operation is from completing when the present owner is let go first. */
  function Distance(s: State, w: Tid): nat {
    var p := PcOf(s, w);
    if p.StoreFlag? then 1
    else if p.WriteIdent? then 2
    else if !p.Acquire? || !Obj(s, p.obj).held then 3
    else
      var q := if p.obj in s.owner then PcOf(s, s.owner[p.obj]) else Idle;
      if q.ClearIdent? then 6 else if q.SwapFlag? then 5 else 4
  }

  /** A goroutine on its way to the lock object of k can be made to hold k, or somebody else already does. */
  lemma {:induction false} SomebodyComesToHold(s: State, k: Key, w: Tid) returns (es: seq<Event>, h: Tid)
    requires Exclusive(s) && k in s.muxes && Acquiring(PcOf(s, w)) && PcOf(s, w).obj == s.muxes[k]
    ensures Plain(s, es) && IsRun(s, es) && Exclusive(Final(s, es)) && (h, k) in Final(s, es).holds
    decreases Distance(s, w)
  {
    var o := s.muxes[k];
    assert ObjectBacked(s, o) && PcOf(s, w).key == k;
    var mover := w;
    var next := w;
    if PcOf(s, w).Acquire? && Obj(s, o).held {
      var u := s.owner[o];
      assert PcBacked(s, u);
      if j :| (u, j) in s.holds && j in s.muxes && s.muxes[j] == o {
        return [], u;
      }
      if Acquiring(PcOf(s, u)) {
        assert PcOf(s, u).key == k;
        es, h := SomebodyComesToHold(s, k, u);
        return;
      }
      mover := u;
    }
    var e := Advance(mover);
    assert PcBacked(s, mover);
    StepKeepsExclusive(s, e);
    OtherPcsKept(s, e);
    if PcOf(s, mover).StoreFlag? {
      assert Final(Next(s, e), []) == Next(s, e);
      return [e], w;
    }
    var rest;
    rest, h := SomebodyComesToHold(Next(s, e), k, w);
    es := [e] + rest;
    assert es[1..] == rest;
  }

  lemma {:induction false} FreshTid(used: set<Tid>) returns (c: Tid)
    ensures forall u :: u in used ==> u < c
    decreases |used|
  {
    c := 0;
    if u :| u in used {
      var d := FreshTid(used - {u});
      c := if d > u then d else u + 1;
      forall v | v in used ensures v < c {
        assert v == u || v in used - {u};
      }
    }
  }

  lemma Prepend(s: State, e: Event, es: seq<Event>)
    requires Enabled(s, e) && IsRun(Next(s, e), es)
    ensures IsRun(s, [e] + es) && Final(s, [e] + es) == Final(Next(s, e), es)
    ensures Disciplined(s, e) && IsDisciplinedRun(Next(s, e), es) ==> IsDisciplinedRun(s, [e] + es)
  {
    assert ([e] + es)[1..] == es;
  }

  /** When the lock object of k (a new one if there is no entry) is unlocked, a newcomer holds k at once. */
  lemma NewcomerHolds(s: State, k: Key, c: Tid) returns (es: seq<Event>)
    requires !s.crashed && c !in s.threads && !Obj(s, Loaded(s, k)).held
    ensures IsDisciplinedRun(s, es) && IsRun(s, es)
    ensures (c, k) in Final(s, es).holds
    ensures forall x <- s.holds :: x in Final(s, es).holds
  {
    var e, a := StartLock(c, k, "", Try), Advance(c);
    var s1 := Next(s, e);
    var s2 := Next(s1, a);
    var s3 := Next(s2, a);
    Prepend(s3, a, []);
    Prepend(s2, a, [a] + []);
    Prepend(s1, a, [a] + ([a] + []));
    Prepend(s, e, [a] + ([a] + ([a] + [])));
    es := [e] + ([a] + ([a] + ([a] + [])));
  }

  /**
   The quiet condition is exact: if a goroutine drops the entry of k while somebody
   holds k or is on the way to its lock object, then some continuation in which
   everybody is disciplined ends with two goroutines holding k.
   */
  lemma UnquietDropBreaksExclusion(s: State, t: Tid, k: Key) returns (es: seq<Event>, h: Tid, c: Tid)
    requires Exclusive(s) && PcOf(s, t) == Drop(k) && !Quiet(s, k)
    ensures Enabled(s, Advance(t))
    ensures IsDisciplinedRun(Next(s, Advance(t)), es) && IsRun(Next(s, Advance(t)), es)
    ensures h != c && (h, k) in Final(Next(s, Advance(t)), es).holds && (c, k) in Final(Next(s, Advance(t)), es).holds
  {
    var fs: seq<Event> := [];
    if u :| (u, k) in s.holds {
      h := u;
    } else {
      var w :| Acquiring(PcOf(s, w)) && PcOf(s, w).obj == s.muxes[k];
      fs, h := SomebodyComesToHold(s, k, w);
    }
    DropCommutesWithPlain(s, t, fs);
    var dropped := Next(s, Advance(t));
    PlainIsDisciplined(dropped, fs);
    var mid := Final(dropped, fs);
    StepKeepsAllocated(Final(s, fs), Advance(t));
    c := FreshTid(mid.threads.Keys + {h});
    assert mid.top !in mid.objs;
    var gs := NewcomerHolds(mid, k, c);
    DisciplinedConcat(dropped, fs, gs);
    es := fs + gs;
  }

  // ----- An Unlock by somebody who does not hold the key can be followed by two holders -----

  /** The state with t at another statement. */
  function Parked(s: State, t: Tid, p: Pc): State {
    s.(threads := s.threads[t := p])
  }

  lemma ParkedStep(s: State, t: Tid, p: Pc, u: Tid)
    requires PcOf(s, t).Idle? && Enabled(s, Advance(u)) && !PcOf(s, u).Drop?
    ensures u != t && Enabled(Parked(s, t, p), Advance(u)) && !PcOf(Parked(s, t, p), u).Drop?
    ensures Next(Parked(s, t, p), Advance(u)) == Parked(Next(s, Advance(u)), t, p)
    ensures PcOf(Next(s, Advance(u)), t).Idle? && Next(s, Advance(u)).muxes == s.muxes
    ensures forall k :: (t, k) in Next(s, Advance(u)).holds <==> (t, k) in s.holds
  {
    var a, b := Next(Parked(s, t, p), Advance(u)), Parked(Next(s, Advance(u)), t, p);
    assert a.threads == b.threads;
  }

  /** What an idle goroutine is doing instead makes no difference to the others' statements. */
  lemma {:induction false} ParkedRun(s: State, t: Tid, p: Pc, es: seq<Event>)
    requires PcOf(s, t).Idle? && Plain(s, es) && IsRun(s, es)
    ensures Plain(Parked(s, t, p), es) && IsRun(Parked(s, t, p), es)
    ensures Final(Parked(s, t, p), es) == Parked(Final(s, es), t, p)
    ensures Final(s, es).muxes == s.muxes
    ensures forall k :: (t, k) in Final(s, es).holds <==> (t, k) in s.holds
    decreases |es|
  {
    if es != [] {
      ParkedStep(s, t, p, es[0].t);
      ParkedRun(Next(s, es[0]), t, p, es[1..]);
    }
  }

  lemma ParkedStart(s: State, t: Tid, p: Pc, c: Tid, k: Key)
    requires Exclusive(s) && c !in s.threads && c != t && PcOf(s, t).Idle? && k in s.muxes
    ensures var e := StartLock(c, k, "", Try);
            && Enabled(s, e) && Enabled(Parked(s, t, p), e) && Next(Parked(s, t, p), e) == Parked(Next(s, e), t, p)
            && Exclusive(Next(s, e)) && Next(s, e).muxes == s.muxes && PcOf(Next(s, e), t).Idle? && Next(s, e).holds == s.holds
            && Acquiring(PcOf(Next(s, e), c)) && PcOf(Next(s, e), c).obj == s.muxes[k]
  {
    var e := StartLock(c, k, "", Try);
    assert Parked(Next(s, e), t, p).threads == Next(Parked(s, t, p), e).threads;
    StepKeepsExclusive(s, e);
  }

  /** While the key has an entry, somebody can come to hold it without any step of an idle t; `s'` is where that leads. */
  lemma HolderArrives(s: State, k: Key, t: Tid, p: Pc) returns (es: seq<Event>, h: Tid, s': State)
    requires Exclusive(s) && k in s.muxes && PcOf(s, t).Idle? && (t, k) !in s.holds
    ensures IsDisciplinedRun(Parked(s, t, p), es) && IsRun(Parked(s, t, p), es)
    ensures Final(Parked(s, t, p), es) == Parked(s', t, p)
    ensures Exclusive(s') && s'.muxes == s.muxes && (h, k) in s'.holds && h != t
  {
    if u :| (u, k) in s.holds {
      return [], u, s;
    }
    var c := FreshTid(s.threads.Keys + {t});
    var e := StartLock(c, k, "", Try);
    ParkedStart(s, t, p, c, k);
    var s1 := Next(s, e);
    var fs;
    fs, h := SomebodyComesToHold(s1, k, c);
    ParkedRun(s1, t, p, fs);
    PlainIsDisciplined(Parked(s1, t, p), fs);
    Prepend(Parked(s, t, p), e, fs);
    es, s' := [e] + fs, Final(s1, fs);
  }

  /** A goroutine that started to unlock a held key finishes, and a newcomer comes to hold the key as well. */
  lemma UnlockLetsNewcomerIn(s: State, t: Tid, h: Tid, k: Key, p: Pc) returns (es: seq<Event>, c: Tid)
    requires Exclusive(s) && (h, k) in s.holds && h != t && p.ClearIdent? && p.key == k && p.obj == s.muxes[k]
    ensures IsDisciplinedRun(Parked(s, t, p), es) && IsRun(Parked(s, t, p), es)
    ensures var s' := Final(Parked(s, t, p), es);
            h != c && (h, k) in s'.holds && (c, k) in s'.holds
  {
    assert HoldBacked(s, h, k);
    var a := Advance(t);
    var s1 := Parked(s, t, p);
    var s2 := Next(s1, a);
    var s3 := Next(s2, a);
    var s4 := Next(s3, a);
    c := FreshTid(s4.threads.Keys + {h});
    es := NewcomerHolds(s4, k, c);
    Prepend(s3, a, es);
    Prepend(s2, a, [a] + es);
    Prepend(s1, a, [a] + ([a] + es));
    es := [a] + ([a] + ([a] + es));
  }

  /**
   The other half of the discipline is exact as well: whoever starts to unlock a key
   that has an entry without holding it, held by somebody else or by nobody, some
   continuation in which everybody is disciplined ends with two goroutines holding it.
   */
  lemma StrayUnlockBreaksExclusion(s: State, t: Tid, k: Key, remove: bool) returns (es: seq<Event>, h: Tid, c: Tid)
    requires Exclusive(s) && PcOf(s, t).Idle? && k in s.muxes && (t, k) !in s.holds
    ensures Enabled(s, StartUnlock(t, k, remove)) && !Disciplined(s, StartUnlock(t, k, remove))
    ensures var s1 := Next(s, StartUnlock(t, k, remove));
            && IsDisciplinedRun(s1, es) && IsRun(s1, es)
            && h != c && (h, k) in Final(s1, es).holds && (c, k) in Final(s1, es).holds
  {
    var p := ClearIdent(k, s.muxes[k], remove, "");
    var s1 := Next(s, StartUnlock(t, k, remove));
    assert s1 == Parked(s, t, p);
    var fs;
    var s';
    fs, h, s' := HolderArrives(s, k, t, p);
    var gs;
    gs, c := UnlockLetsNewcomerIn(s', t, h, k, p);
    DisciplinedConcat(s1, fs, gs);
    es := fs + gs;
  }
}
