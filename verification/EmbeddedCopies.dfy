/**
 The copies of credentials embedded in cached entities, which GetEntityForPool and
 GetEntityForScaleSet return without consulting the credential caches. Updates write a
 credential cache first and refresh the copies later, so updates that overlap can leave
 an older copy behind. This module says exactly when they do. Rate limits are recorded
 in the credential cache alone and are left out of the comparison.
 */
module EmbeddedCopies {
  import opened Wrappers
  import opened Params
  import opened CredentialCaches

  predicate Same(a: Credentials, b: Credentials) {
    a.(rateLimit := None) == b.(rateLimit := None)
  }

  /** The credentials that a step writes to the cache under `ref`, if any. */
  function Written(w: World, ev: Event, ref: Ref): Option<Credentials> {
    match ev
    case SetCredentials(_, forge, c) => if Ref(forge, c.id) == ref then Some(c) else None
    case UpdateEndpoint(_, ep, _) =>
      if ref.forge == Gitea && ref.id in w.creds.gitea && w.creds.gitea[ref.id].endpoint.name == ep.name then
        Some(WithEndpoint(w.creds.gitea[ref.id], ep))
      else None
    case _ => None
  }

  /** The credentials with that ID that a step copies into the entities, if any. */
  function Copied(w: World, ev: Event, id: nat): Option<Credentials> {
    var p := PcOf(w, ev.t);
    if ev.RefreshNext? && p.Refreshing? && p.todo != [] && p.todo[0].id == id then Some(p.todo[0]) else None
  }

  ghost function LastWritten(w: World, evs: seq<Event>, ref: Ref, forgeOf: nat -> Forge): Option<Credentials>
    requires IsRun(w, evs, forgeOf)
    decreases |evs|
  {
    if evs == [] then None
    else
      var later := LastWritten(Next(w, evs[0]), evs[1..], ref, forgeOf);
      if later.Some? then later else Written(w, evs[0], ref)
  }

  ghost function LastCopied(w: World, evs: seq<Event>, id: nat, forgeOf: nat -> Forge): Option<Credentials>
    requires IsRun(w, evs, forgeOf)
    decreases |evs|
  {
    if evs == [] then None
    else
      var later := LastCopied(Next(w, evs[0]), evs[1..], id, forgeOf);
      if later.Some? then later else Copied(w, evs[0], id)
  }

  /** The last refresh of that ID a goroutine still has to make. */
  function LastOf(todo: seq<Credentials>, id: nat): Option<Credentials> {
    if todo == [] then None
    else
      var later := LastOf(todo[1..], id);
      if later.Some? then later else if todo[0].id == id then Some(todo[0]) else None
  }

  function LastOfPc(p: Pc, id: nat): Option<Credentials> {
    if p.Refreshing? then LastOf(p.todo, id) else None
  }

  /** Some goroutine still has to refresh copies with that ID. */
  ghost predicate HasPending(w: World, id: nat) {
    exists t :: LastOfPc(PcOf(w, t), id).Some?
  }

  // ----- One step -----

  /** The entity is assigned those credentials. */
  predicate Assigned(w: World, e: string, ref: Ref) {
    e in w.entities && e in w.assignment && w.assignment[e] == ref
  }

  /** The step neither sets or deletes the entity nor deletes the credentials. */
  predicate Keeps(ev: Event, e: string, ref: Ref) {
    && !(ev.SetEntity? && ev.x.id == e) && !(ev.DeleteEntity? && ev.e == e)
    && !(ev.DeleteCredentials? && Ref(ev.forge, ev.id) == ref)
  }

  lemma StepOnCopy(w: World, ev: Event, e: string, ref: Ref, forgeOf: nat -> Forge)
    requires Consistent(w, forgeOf) && Enabled(w, ev) && NoCollision(ev, forgeOf)
    requires Assigned(w, e, ref) && Keeps(ev, e, ref)
    ensures var w' := Next(w, ev);
            && Assigned(w', e, ref)
            && w'.entities[e].credentials == Copied(w, ev, ref.id).GetOr(w.entities[e].credentials)
  {
    assert w.entities[e].credentials.id == ref.id;
  }

  lemma StepOnCache(w: World, ev: Event, ref: Ref, forgeOf: nat -> Forge)
    requires Consistent(w, forgeOf) && Enabled(w, ev) && NoCollision(ev, forgeOf) && ref.forge != OtherForge
    requires !(ev.DeleteCredentials? && Ref(ev.forge, ev.id) == ref)
    ensures var now, before, written := Lookup(Next(w, ev).creds, ref), Lookup(w.creds, ref), Written(w, ev, ref);
            if written.Some? then now == written
            else now.Some? == before.Some? && (now.Some? ==> Same(now.value, before.value))
  {
  }

  /** Every write leaves a refresh of its ID to be made. */
  lemma WriteLeavesPending(w: World, ev: Event, ref: Ref, forgeOf: nat -> Forge)
    requires Consistent(w, forgeOf) && Enabled(w, ev) && Written(w, ev, ref).Some?
    ensures LastOfPc(PcOf(Next(w, ev), ev.t), ref.id).Some?
    ensures HasPending(Next(w, ev), ref.id)
  {
    var todo := PcOf(Next(w, ev), ev.t).todo;
    assert Written(w, ev, ref).value in todo;
    LastOfFinds(todo, Written(w, ev, ref).value);
  }

  lemma {:induction false} LastOfFinds(todo: seq<Credentials>, c: Credentials)
    requires c in todo
    ensures LastOf(todo, c.id).Some?
  {
    if todo[0] != c {
      LastOfFinds(todo[1..], c);
    }
  }

  /** A refresh that has to be made stays so until one of its ID is made. */
  lemma PendingStays(w: World, ev: Event, id: nat)
    requires Enabled(w, ev) && HasPending(w, id)
    ensures HasPending(Next(w, ev), id) || Copied(w, ev, id).Some?
  {
    var t :| LastOfPc(PcOf(w, t), id).Some?;
    assert t != ev.t ==> PcOf(Next(w, ev), t) == PcOf(w, t);
    if t == ev.t {
      assert LastOfPc(PcOf(Next(w, ev), t), id).Some? || Copied(w, ev, id).Some?;
    }
  }

  // ----- Whole runs -----

  ghost predicate AllKeep(evs: seq<Event>, e: string, ref: Ref) {
    forall i :: 0 <= i < |evs| ==> Keeps(evs[i], e, ref)
  }

  /** At the end of any run the embedded copy is the one last copied and the cached copy the one last written. */
  lemma {:induction false} CopiesAfterRun(w: World, evs: seq<Event>, e: string, ref: Ref, forgeOf: nat -> Forge)
    requires Consistent(w, forgeOf) && IsRun(w, evs, forgeOf) && ref.forge != OtherForge
    requires Assigned(w, e, ref) && AllKeep(evs, e, ref)
    ensures var w' := Final(w, evs, forgeOf);
            var written, cached := LastWritten(w, evs, ref, forgeOf), Lookup(w'.creds, ref);
            && Assigned(w', e, ref)
            && w'.entities[e].credentials == LastCopied(w, evs, ref.id, forgeOf).GetOr(w.entities[e].credentials)
            && (written.Some? ==> cached.Some? && Same(cached.value, written.value))
            && (written.None? ==> cached.Some? == Lookup(w.creds, ref).Some?)
            && (written.None? && cached.Some? ==> Same(cached.value, Lookup(w.creds, ref).value))
    decreases |evs|
  {
    if evs != [] {
      assert Keeps(evs[0], e, ref);
      assert forall i :: 0 <= i < |evs| - 1 ==> evs[1..][i] == evs[i + 1];
      StepKeepsConsistent(w, evs[0], forgeOf);
      StepOnCopy(w, evs[0], e, ref, forgeOf);
      StepOnCache(w, evs[0], ref, forgeOf);
      CopiesAfterRun(Next(w, evs[0]), evs[1..], e, ref, forgeOf);
    }
  }

  lemma {:induction false} PendingIsMade(w: World, evs: seq<Event>, id: nat, forgeOf: nat -> Forge)
    requires IsRun(w, evs, forgeOf) && HasPending(w, id) && !HasPending(Final(w, evs, forgeOf), id)
    ensures LastCopied(w, evs, id, forgeOf).Some?
    decreases |evs|
  {
    PendingStays(w, evs[0], id);
    if HasPending(Next(w, evs[0]), id) {
      PendingIsMade(Next(w, evs[0]), evs[1..], id, forgeOf);
    }
  }

  lemma {:induction false} WriteIsCopied(w: World, evs: seq<Event>, ref: Ref, forgeOf: nat -> Forge)
    requires Consistent(w, forgeOf) && IsRun(w, evs, forgeOf)
    requires LastWritten(w, evs, ref, forgeOf).Some? && !HasPending(Final(w, evs, forgeOf), ref.id)
    ensures LastCopied(w, evs, ref.id, forgeOf).Some?
    decreases |evs|
  {
    var w1 := Next(w, evs[0]);
    if LastWritten(w1, evs[1..], ref, forgeOf).Some? {
      StepKeepsConsistent(w, evs[0], forgeOf);
      WriteIsCopied(w1, evs[1..], ref, forgeOf);
    } else {
      WriteLeavesPending(w, evs[0], ref, forgeOf);
      PendingIsMade(w1, evs[1..], ref.id, forgeOf);
    }
  }

  /**
   Once the refreshes that updates owe are all made, an entity that kept its assignment
   embeds the cached copy if and only if the refresh made last carried the credentials
   written last.
   */
  lemma EmbeddedIsCurrentIff(w: World, evs: seq<Event>, e: string, ref: Ref, forgeOf: nat -> Forge)
    requires Consistent(w, forgeOf) && IsRun(w, evs, forgeOf) && ref.forge != OtherForge
    requires Assigned(w, e, ref) && AllKeep(evs, e, ref)
    requires LastWritten(w, evs, ref, forgeOf).Some? && !HasPending(Final(w, evs, forgeOf), ref.id)
    ensures var w' := Final(w, evs, forgeOf);
            var copied, written := LastCopied(w, evs, ref.id, forgeOf), LastWritten(w, evs, ref, forgeOf);
            && Assigned(w', e, ref) && Lookup(w'.creds, ref).Some? && copied.Some?
            && (Same(w'.entities[e].credentials, Lookup(w'.creds, ref).value) <==> Same(copied.value, written.value))
  {
    CopiesAfterRun(w, evs, e, ref, forgeOf);
    WriteIsCopied(w, evs, ref, forgeOf);
  }

  // ----- Which states are safe -----

  ghost predicate Current(w: World, e: string, ref: Ref)
    requires Assigned(w, e, ref)
  {
    Lookup(w.creds, ref).Some? ==> Same(w.entities[e].credentials, Lookup(w.creds, ref).value)
  }

  ghost predicate AllCurrent(w: World, ref: Ref) {
    forall e :: Assigned(w, e, ref) ==> Current(w, e, ref)
  }

  /** The last refresh each goroutine owes would bring the credentials `c`. */
  ghost predicate Brings(w: World, id: nat, c: Credentials) {
    forall t :: LastOfPc(PcOf(w, t), id).Some? ==> Same(LastOfPc(PcOf(w, t), id).value, c)
  }

  /** All refreshes owed end with the cached copy, and where none is owed the embedded copies are current. */
  ghost predicate OnTrack(w: World, ref: Ref) {
    && (Lookup(w.creds, ref).Some? ==> Brings(w, ref.id, Lookup(w.creds, ref).value))
    && (HasPending(w, ref.id) || AllCurrent(w, ref))
  }

  /**
   The step is orderly: a write finds no refresh of its ID owed that would bring
   anything else (none owed at all will do), and SetEntity brings the cached copy unless
   a refresh is owed.
   */
  ghost predicate Orderly(w: World, ev: Event, ref: Ref) {
    && (Written(w, ev, ref).Some? ==> Brings(w, ref.id, Written(w, ev, ref).value))
    && (ev.SetEntity? && RefOf(ev.x.credentials) == ref && Lookup(w.creds, ref).Some? && !HasPending(w, ref.id) ==>
          Same(ev.x.credentials, Lookup(w.creds, ref).value))
  }

  lemma {:induction false} LastOfMember(todo: seq<Credentials>, id: nat)
    requires LastOf(todo, id).Some?
    ensures LastOf(todo, id).value in todo && LastOf(todo, id).value.id == id
  {
    if LastOf(todo[1..], id).Some? {
      LastOfMember(todo[1..], id);
    }
  }

  /** What the goroutine that takes the step owes afterwards. */
  lemma StepOnOwnPending(w: World, ev: Event, ref: Ref, forgeOf: nat -> Forge)
    requires Consistent(w, forgeOf) && Enabled(w, ev) && NoCollision(ev, forgeOf) && ref.forge == forgeOf(ref.id)
    requires LastOfPc(PcOf(Next(w, ev), ev.t), ref.id).Some?
    ensures var owed := LastOfPc(PcOf(Next(w, ev), ev.t), ref.id);
            owed == Written(w, ev, ref) || (Written(w, ev, ref).None? && owed == LastOfPc(PcOf(w, ev.t), ref.id))
  {
    if ev.SetCredentials? || ev.UpdateEndpoint? {
      LastOfMember(PcOf(Next(w, ev), ev.t).todo, ref.id);
    }
  }

  lemma StepKeepsBrings(w: World, ev: Event, ref: Ref, forgeOf: nat -> Forge)
    requires Consistent(w, forgeOf) && Enabled(w, ev) && NoCollision(ev, forgeOf)
    requires ref.forge == forgeOf(ref.id) != OtherForge && OnTrack(w, ref) && Orderly(w, ev, ref)
    requires Lookup(Next(w, ev).creds, ref).Some?
    ensures Brings(Next(w, ev), ref.id, Lookup(Next(w, ev).creds, ref).value)
  {
    var w' := Next(w, ev);
    StepOnCache(w, ev, ref, forgeOf);
    forall t | LastOfPc(PcOf(w', t), ref.id).Some?
      ensures Same(LastOfPc(PcOf(w', t), ref.id).value, Lookup(w'.creds, ref).value)
    {
      if t == ev.t {
        StepOnOwnPending(w, ev, ref, forgeOf);
      } else {
        assert PcOf(w', t) == PcOf(w, t);
      }
    }
  }

  /** When the step makes the last refresh owed, it brings the cached copy to every entity. */
  lemma LastRefreshMakesCurrent(w: World, ev: Event, ref: Ref, forgeOf: nat -> Forge)
    requires Consistent(w, forgeOf) && Enabled(w, ev) && NoCollision(ev, forgeOf)
    requires ref.forge == forgeOf(ref.id) != OtherForge && OnTrack(w, ref)
    requires HasPending(w, ref.id) && !HasPending(Next(w, ev), ref.id)
    ensures AllCurrent(Next(w, ev), ref)
  {
    var w' := Next(w, ev);
    PendingStays(w, ev, ref.id);
    var c := Copied(w, ev, ref.id).value;
    assert LastOfPc(PcOf(w', ev.t), ref.id).None?;
    assert LastOfPc(PcOf(w, ev.t), ref.id) == Some(c);
    forall e | Assigned(w', e, ref) ensures Current(w', e, ref) {
      assert Assigned(w, e, ref);
      StepOnCopy(w, ev, e, ref, forgeOf);
    }
  }

  lemma QuietStepKeepsCurrent(w: World, ev: Event, ref: Ref, forgeOf: nat -> Forge)
    requires Consistent(w, forgeOf) && Enabled(w, ev) && NoCollision(ev, forgeOf)
    requires ref.forge == forgeOf(ref.id) != OtherForge && AllCurrent(w, ref) && Orderly(w, ev, ref)
    requires !HasPending(w, ref.id) && !HasPending(Next(w, ev), ref.id)
    ensures AllCurrent(Next(w, ev), ref)
  {
    var w' := Next(w, ev);
    if Written(w, ev, ref).Some? {
      WriteLeavesPending(w, ev, ref, forgeOf);
      assert false;
    }
    if Lookup(w'.creds, ref).Some? {
      StepOnCache(w, ev, ref, forgeOf);
      assert Copied(w, ev, ref.id).Some? ==> LastOfPc(PcOf(w, ev.t), ref.id).Some?;
      forall e | Assigned(w', e, ref) ensures Current(w', e, ref) {
        if Keeps(ev, e, ref) {
          assert Assigned(w, e, ref);
          StepOnCopy(w, ev, e, ref, forgeOf);
        }
      }
    }
  }

  lemma OrderlyStepKeepsOnTrack(w: World, ev: Event, ref: Ref, forgeOf: nat -> Forge)
    requires Consistent(w, forgeOf) && Enabled(w, ev) && NoCollision(ev, forgeOf)
    requires ref.forge == forgeOf(ref.id) != OtherForge && OnTrack(w, ref) && Orderly(w, ev, ref)
    ensures OnTrack(Next(w, ev), ref)
  {
    if Lookup(Next(w, ev).creds, ref).Some? {
      StepKeepsBrings(w, ev, ref, forgeOf);
    }
    if !HasPending(Next(w, ev), ref.id) {
      if HasPending(w, ref.id) {
        LastRefreshMakesCurrent(w, ev, ref, forgeOf);
      } else {
        QuietStepKeepsCurrent(w, ev, ref, forgeOf);
      }
    }
  }

  ghost predicate IsOrderlyRun(w: World, evs: seq<Event>, ref: Ref, forgeOf: nat -> Forge)
    requires IsRun(w, evs, forgeOf)
    decreases |evs|
  {
    evs == [] || (Orderly(w, evs[0], ref) && IsOrderlyRun(Next(w, evs[0]), evs[1..], ref, forgeOf))
  }

  /**
   If no update of the credentials starts while a refresh that would bring others is
   still owed, then whenever none is owed every entity assigned to them embeds the cached
   copy, up to the rate limit.
   */
  lemma {:induction false} OrderlyRunsKeepCopiesCurrent(w: World, evs: seq<Event>, ref: Ref, forgeOf: nat -> Forge)
    requires Consistent(w, forgeOf) && IsRun(w, evs, forgeOf) && IsOrderlyRun(w, evs, ref, forgeOf)
    requires ref.forge == forgeOf(ref.id) != OtherForge && OnTrack(w, ref)
    ensures var w' := Final(w, evs, forgeOf);
            OnTrack(w', ref) && (!HasPending(w', ref.id) ==> AllCurrent(w', ref))
    decreases |evs|
  {
    if evs != [] {
      OrderlyStepKeepsOnTrack(w, evs[0], ref, forgeOf);
      StepKeepsConsistent(w, evs[0], forgeOf);
      OrderlyRunsKeepCopiesCurrent(Next(w, evs[0]), evs[1..], ref, forgeOf);
    }
  }

  // ----- The condition is exact -----

  ghost predicate OnlyRefreshes(evs: seq<Event>) {
    forall i :: 0 <= i < |evs| ==> evs[i].RefreshNext?
  }

  lemma {:induction false} RefreshesAreOrderly(w: World, evs: seq<Event>, ref: Ref, forgeOf: nat -> Forge)
    requires IsRun(w, evs, forgeOf) && OnlyRefreshes(evs)
    ensures IsOrderlyRun(w, evs, ref, forgeOf) && Final(w, evs, forgeOf).creds == w.creds
    decreases |evs|
  {
    if evs != [] {
      assert evs[0].RefreshNext?;
      RefreshesAreOrderly(Next(w, evs[0]), evs[1..], ref, forgeOf);
    }
  }

  lemma {:induction false} RunConcat(w: World, a: seq<Event>, b: seq<Event>, forgeOf: nat -> Forge)
    requires IsRun(w, a, forgeOf) && IsRun(Final(w, a, forgeOf), b, forgeOf)
    ensures IsRun(w, a + b, forgeOf) && Final(w, a + b, forgeOf) == Final(Final(w, a, forgeOf), b, forgeOf)
    decreases |a|
  {
    if a == [] {
      assert a + b == b;
    } else {
      RunConcat(Next(w, a[0]), a[1..], b, forgeOf);
      assert (a + b)[1..] == a[1..] + b;
    }
  }

  lemma RunPrepend(w: World, ev: Event, evs: seq<Event>, forgeOf: nat -> Forge)
    requires Enabled(w, ev) && NoCollision(ev, forgeOf) && IsRun(Next(w, ev), evs, forgeOf)
    ensures IsRun(w, [ev] + evs, forgeOf) && Final(w, [ev] + evs, forgeOf) == Final(Next(w, ev), evs, forgeOf)
  {
    assert ([ev] + evs)[1..] == evs;
  }

  lemma OneRefresh(w: World, t: int, e: string, ref: Ref, forgeOf: nat -> Forge)
    requires Consistent(w, forgeOf) && Assigned(w, e, ref) && PcOf(w, t).Refreshing? && PcOf(w, t).todo != []
    ensures var c, w' := PcOf(w, t).todo[0], Next(w, RefreshNext(t));
            && Consistent(w', forgeOf) && Assigned(w', e, ref)
            && PcOf(w', t) == Refreshing(PcOf(w, t).todo[1..]) && (forall u :: u != t ==> PcOf(w', u) == PcOf(w, u))
            && w'.entities[e].credentials == if c.id == ref.id then c else w.entities[e].credentials
  {
    StepKeepsConsistent(w, RefreshNext(t), forgeOf);
    StepOnCopy(w, RefreshNext(t), e, ref, forgeOf);
  }

  /** The events are refreshes only and lead from `w` to `w'`, where the entity is still assigned. */
  ghost predicate Leads(w: World, evs: seq<Event>, w': World, e: string, ref: Ref, forgeOf: nat -> Forge) {
    && IsRun(w, evs, forgeOf) && OnlyRefreshes(evs) && Final(w, evs, forgeOf) == w'
    && Consistent(w', forgeOf) && Assigned(w', e, ref)
  }

  lemma LeadsConcat(w: World, a: seq<Event>, v: World, b: seq<Event>, u: World, e: string, ref: Ref, forgeOf: nat -> Forge)
    requires Leads(w, a, v, e, ref, forgeOf) && Leads(v, b, u, e, ref, forgeOf)
    ensures Leads(w, a + b, u, e, ref, forgeOf)
  {
    RunConcat(w, a, b, forgeOf);
  }

  lemma OneRefreshLeads(w: World, t: int, e: string, ref: Ref, forgeOf: nat -> Forge)
    requires Consistent(w, forgeOf) && Assigned(w, e, ref) && PcOf(w, t).Refreshing? && PcOf(w, t).todo != []
    ensures Leads(w, [RefreshNext(t)], Next(w, RefreshNext(t)), e, ref, forgeOf)
  {
    OneRefresh(w, t, e, ref, forgeOf);
    RunPrepend(w, RefreshNext(t), [], forgeOf);
    assert [RefreshNext(t)] == [RefreshNext(t)] + [];
  }

  /** One goroutine makes all the refreshes it owes. */
  lemma {:induction false} Drain(w: World, t: int, e: string, ref: Ref, forgeOf: nat -> Forge)
    returns (evs: seq<Event>, w': World)
    requires Consistent(w, forgeOf) && Assigned(w, e, ref) && PcOf(w, t).Refreshing?
    ensures Leads(w, evs, w', e, ref, forgeOf)
    ensures LastOfPc(PcOf(w', t), ref.id).None? && (forall u :: u != t ==> PcOf(w', u) == PcOf(w, u))
    ensures w'.entities[e].credentials == LastOfPc(PcOf(w, t), ref.id).GetOr(w.entities[e].credentials)
    decreases |PcOf(w, t).todo|
  {
    if PcOf(w, t).todo == [] {
      return [], w;
    }
    var v := Next(w, RefreshNext(t));
    OneRefresh(w, t, e, ref, forgeOf);
    OneRefreshLeads(w, t, e, ref, forgeOf);
    evs, w' := Drain(v, t, e, ref, forgeOf);
    LeadsConcat(w, [RefreshNext(t)], v, evs, w', e, ref, forgeOf);
    evs := [RefreshNext(t)] + evs;
  }

  /** All goroutines in the set make all the refreshes they owe. */
  lemma {:induction false} DrainAll(w: World, ts: set<int>, e: string, ref: Ref, forgeOf: nat -> Forge)
    returns (evs: seq<Event>, w': World)
    requires Consistent(w, forgeOf) && Assigned(w, e, ref)
    ensures Leads(w, evs, w', e, ref, forgeOf)
    ensures forall u :: u in ts ==> LastOfPc(PcOf(w', u), ref.id).None?
    ensures forall u :: u !in ts ==> PcOf(w', u) == PcOf(w, u)
    decreases |ts|
  {
    evs, w' := [], w;
    if t :| t in ts {
      evs, w' := DrainAll(w, ts - {t}, e, ref, forgeOf);
      if PcOf(w', t).Refreshing? {
        var last, v := Drain(w', t, e, ref, forgeOf);
        LeadsConcat(w, evs, w', last, v, e, ref, forgeOf);
        evs, w' := evs + last, v;
      }
    }
  }

  /** Whatever one goroutine owes last can be the last refresh made. */
  lemma OwedRefreshCanWin(w: World, t: int, e: string, ref: Ref, forgeOf: nat -> Forge)
    returns (evs: seq<Event>, w': World)
    requires Consistent(w, forgeOf) && Assigned(w, e, ref) && LastOfPc(PcOf(w, t), ref.id).Some?
    ensures Leads(w, evs, w', e, ref, forgeOf)
    ensures !HasPending(w', ref.id) && Some(w'.entities[e].credentials) == LastOfPc(PcOf(w, t), ref.id)
  {
    var mid;
    evs, mid := DrainAll(w, w.threads.Keys - {t}, e, ref, forgeOf);
    var last;
    last, w' := Drain(mid, t, e, ref, forgeOf);
    LeadsConcat(w, evs, mid, last, w', e, ref, forgeOf);
    evs := evs + last;
    forall u ensures LastOfPc(PcOf(w', u), ref.id).None? {
      if u != t && u !in w.threads {
        assert PcOf(mid, u) == PcOf(w, u);
      }
    }
  }

  /** However the refreshes owed are scheduled, every entity ends up with the cached copy. */
  ghost predicate EndsCurrent(w: World, ref: Ref, forgeOf: nat -> Forge) {
    forall evs :: IsRun(w, evs, forgeOf) && OnlyRefreshes(evs) && !HasPending(Final(w, evs, forgeOf), ref.id) ==>
      AllCurrent(Final(w, evs, forgeOf), ref)
  }

  /**
   For cached credentials that some entity is assigned to, being on track is exactly
   what it takes: otherwise some schedule of the refreshes owed leaves a stale copy.
   */
  lemma EndsCurrentIff(w: World, e: string, ref: Ref, forgeOf: nat -> Forge)
    requires Consistent(w, forgeOf) && Assigned(w, e, ref) && Lookup(w.creds, ref).Some?
    requires ref.forge == forgeOf(ref.id) != OtherForge
    ensures EndsCurrent(w, ref, forgeOf) <==> OnTrack(w, ref)
  {
    if OnTrack(w, ref) {
      forall evs | IsRun(w, evs, forgeOf) && OnlyRefreshes(evs) && !HasPending(Final(w, evs, forgeOf), ref.id)
        ensures AllCurrent(Final(w, evs, forgeOf), ref)
      {
        RefreshesAreOrderly(w, evs, ref, forgeOf);
        OrderlyRunsKeepCopiesCurrent(w, evs, ref, forgeOf);
      }
    } else {
      NotOnTrackCanEndStale(w, e, ref, forgeOf);
    }
  }

  lemma NotOnTrackCanEndStale(w: World, e: string, ref: Ref, forgeOf: nat -> Forge)
    requires Consistent(w, forgeOf) && Assigned(w, e, ref) && Lookup(w.creds, ref).Some?
    requires ref.forge == forgeOf(ref.id) != OtherForge && !OnTrack(w, ref)
    ensures !EndsCurrent(w, ref, forgeOf)
  {
    var cached := Lookup(w.creds, ref).value;
    var evs: seq<Event> := [];
    if t :| LastOfPc(PcOf(w, t), ref.id).Some? && !Same(LastOfPc(PcOf(w, t), ref.id).value, cached) {
      var w';
      evs, w' := OwedRefreshCanWin(w, t, e, ref, forgeOf);
      RefreshesAreOrderly(w, evs, ref, forgeOf);
      assert !Current(Final(w, evs, forgeOf), e, ref);
    }
    assert !AllCurrent(Final(w, evs, forgeOf), ref) && !HasPending(Final(w, evs, forgeOf), ref.id);
  }

  /** So a write made on track is safe exactly when it is orderly. */
  lemma WriteIsSafeIff(w: World, ev: Event, e: string, ref: Ref, forgeOf: nat -> Forge)
    requires Consistent(w, forgeOf) && Enabled(w, ev) && NoCollision(ev, forgeOf) && Written(w, ev, ref).Some?
    requires Assigned(w, e, ref) && ref.forge == forgeOf(ref.id) != OtherForge && OnTrack(w, ref)
    ensures EndsCurrent(Next(w, ev), ref, forgeOf) <==> Brings(w, ref.id, Written(w, ev, ref).value)
  {
    var w' := Next(w, ev);
    StepKeepsConsistent(w, ev, forgeOf);
    StepOnCopy(w, ev, e, ref, forgeOf);
    StepOnCache(w, ev, ref, forgeOf);
    EndsCurrentIff(w', e, ref, forgeOf);
    if OnTrack(w', ref) {
      forall t | LastOfPc(PcOf(w, t), ref.id).Some? ensures Same(LastOfPc(PcOf(w, t), ref.id).value, Written(w, ev, ref).value) {
        assert t != ev.t;
        assert PcOf(w', t) == PcOf(w, t);
      }
    } else if Brings(w, ref.id, Written(w, ev, ref).value) {
      OrderlyStepKeepsOnTrack(w, ev, ref, forgeOf);
    }
  }

  /** Two different updates that overlap are never safe: a schedule of their refreshes leaves a stale copy. */
  lemma EmbeddedCopyCanStayStale(w: World, t: int, u: int, c: Credentials, d: Credentials, e: string, forgeOf: nat -> Forge)
    requires Consistent(w, forgeOf) && PcOf(w, t).Idle? && PcOf(w, u).Idle? && t != u
    requires RefOf(c) == RefOf(d) && c.forge == forgeOf(c.id) != OtherForge && !Same(c, d)
    requires Assigned(w, e, RefOf(c)) && !HasPending(w, c.id) && AllCurrent(w, RefOf(c))
    ensures Enabled(w, SetCredentials(t, c.forge, c))
    ensures var w1 := Next(w, SetCredentials(t, c.forge, c));
            && EndsCurrent(w1, RefOf(c), forgeOf)
            && Enabled(w1, SetCredentials(u, c.forge, d)) && !EndsCurrent(Next(w1, SetCredentials(u, c.forge, d)), RefOf(c), forgeOf)
  {
    var ref, first, second := RefOf(c), SetCredentials(t, c.forge, c), SetCredentials(u, c.forge, d);
    var w1 := Next(w, first);
    OrderlyStepKeepsOnTrack(w, first, ref, forgeOf);
    StepKeepsConsistent(w, first, forgeOf);
    StepOnCopy(w, first, e, ref, forgeOf);
    EndsCurrentIff(w1, e, ref, forgeOf);
    assert LastOfPc(PcOf(w1, t), ref.id) == Some(c) by { assert LastOf([c], ref.id) == Some(c); }
    WriteIsSafeIff(w1, second, e, ref, forgeOf);
  }
}
