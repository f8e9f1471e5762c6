/**
 The instance deletion backoff of locking/local_backoff_locker.go. Seconds are
 reals (float64 rounding is not modelled), instants are integers in nanoseconds,
 and `base` stands for PoolConsilitationInterval in seconds.
 */
module DeleteBackoff {
  import opened Wrappers

  const MAX_BACKOFF_SECONDS := 1200.0
  const SECOND := 1_000_000_000

  /** One instanceBackOff; `last` is None while lastRecordedFailureTime is the zero time. */
  datatype Entry = Entry(seconds: real, last: Option<int>)

  const NEVER_FAILED := Entry(0.0, None)

  type Entries = map<string, Entry>

  datatype Op =
    | ShouldProcess(key: string, now: int)
    | RecordFailure(key: string, now: int)
    | Delete(key: string)

  function Min(x: real, y: real): real { if x <= y then x else y }

  /** muxes.LoadOrStore(key, &instanceBackOff{}) */
  function Loaded(s: Entries, key: string): Entry {
    if key in s then s[key] else NEVER_FAILED
  }

  function Failed(base: real, x: Entry, now: int): Entry {
    Entry(if x.seconds == 0.0 then base else Min(x.seconds * 1.5, MAX_BACKOFF_SECONDS), Some(now))
  }

  function Step(base: real, s: Entries, op: Op): Entries {
    match op
    case ShouldProcess(key, _) => s[key := Loaded(s, key)]
    case RecordFailure(key, now) => s[key := Failed(base, Loaded(s, key), now)]
    case Delete(key) => s - {key}
  }

  /** The end of the waiting period, if there is one; the duration is truncated to whole seconds. */
  function Deadline(s: Entries, key: string): Option<int> {
    var x := Loaded(s, key);
    if x.last.None? || x.seconds == 0.0 then None else Some(x.last.value + x.seconds.Floor * SECOND)
  }

  /** What ShouldProcess answers at `now`. */
  function Answer(s: Entries, key: string, now: int): (bool, Option<int>) {
    var d := Deadline(s, key);
    (d.None? || now > d.value, d)
  }

  class InstanceDeleteBackoff {
    const base: real
    var muxes: Entries

    constructor (base: real)
      ensures this.base == base && muxes == map[]
    {
      this.base := base;
      muxes := map[];
    }

    method ShouldProcess(key: string, now: int) returns (ok: bool, deadline: Option<int>)
      modifies this
      ensures muxes == Step(base, old(muxes), Op.ShouldProcess(key, now))
      ensures (ok, deadline) == Answer(old(muxes), key, now)
    {
      if key !in muxes {
        muxes := muxes[key := NEVER_FAILED];
        return true, None;
      }
      var ib := muxes[key];
      if ib.last.None? || ib.seconds == 0.0 {
        return true, None;
      }
      var d := ib.last.value + ib.seconds.Floor * SECOND;
      return now > d, Some(d);
    }

    method RecordFailure(key: string, now: int)
      modifies this
      ensures muxes == Step(base, old(muxes), Op.RecordFailure(key, now))
    {
      var ib := if key in muxes then muxes[key] else NEVER_FAILED;
      ib := ib.(last := Some(now));
      if ib.seconds == 0.0 {
        ib := ib.(seconds := base);
      } else {
        var newBackoff := ib.seconds * 1.5;
        ib := ib.(seconds := Min(newBackoff, MAX_BACKOFF_SECONDS));
      }
      muxes := muxes[key := ib];
    }

    method Delete(key: string)
      modifies this
      ensures muxes == Step(base, old(muxes), Op.Delete(key))
    {
      muxes := muxes - {key};
    }
  }

  function Run(base: real, ops: seq<Op>): Entries {
    if ops == [] then map[] else Step(base, Run(base, ops[..|ops| - 1]), ops[|ops| - 1])
  }

  // ----- The closed form -----

  function Pow(n: nat): real { if n == 0 then 1.0 else 1.5 * Pow(n - 1) }

  /** Failures of the key since its last Delete. */
  function Failures(ops: seq<Op>, key: string): nat {
    if ops == [] then 0
    else
      var op, n := ops[|ops| - 1], Failures(ops[..|ops| - 1], key);
      if op == Delete(key) then 0 else if op.RecordFailure? && op.key == key then n + 1 else n
  }

  function Geometric(base: real, n: nat): real { base * Pow(n) }

  /** The documented geometric progression with its cap. */
  function Progression(base: real, n: nat): real
    requires n >= 1
  {
    Min(Geometric(base, n - 1), MAX_BACKOFF_SECONDS)
  }

  /** The backoff after n failures: geometric growth up to the cap, which is applied from the second failure on. */
  function Backoff(base: real, n: nat): real {
    if n == 0 then 0.0 else if n == 1 then base else Progression(base, n)
  }

  lemma BackoffGrows(base: real, n: nat)
    requires base > 0.0
    ensures Pow(n) > 0.0
    ensures Backoff(base, n + 1) > 0.0
    ensures n >= 1 ==> Backoff(base, n + 1) == Min(Backoff(base, n) * 1.5, MAX_BACKOFF_SECONDS)
  {
    if n > 0 {
      BackoffGrows(base, n - 1);
      assert Geometric(base, n) == Geometric(base, n - 1) * 1.5;
      assert Geometric(base, 0) == base;
    }
  }

  /** After any history, the stored backoff depends on the number of failures since the last Delete alone, by the closed form. */
  lemma {:induction false} ClosedForm(base: real, ops: seq<Op>, key: string)
    requires base > 0.0
    ensures Loaded(Run(base, ops), key).seconds == Backoff(base, Failures(ops, key))
    ensures Loaded(Run(base, ops), key).last.Some? <==> Failures(ops, key) > 0
  {
    if ops != [] {
      ClosedForm(base, ops[..|ops| - 1], key);
      var n := Failures(ops[..|ops| - 1], key);
      BackoffGrows(base, n);
      if n > 0 { BackoffGrows(base, n - 1); }
    }
  }

  /** When the key last failed since its last Delete. */
  function LastFailure(ops: seq<Op>, key: string): Option<int> {
    if ops == [] then None
    else
      var op := ops[|ops| - 1];
      if op == Delete(key) then None
      else if op.RecordFailure? && op.key == key then Some(op.now)
      else LastFailure(ops[..|ops| - 1], key)
  }

  lemma {:induction false} LastIsRecorded(base: real, ops: seq<Op>, key: string)
    ensures Loaded(Run(base, ops), key).last == LastFailure(ops, key)
  {
    if ops != [] {
      LastIsRecorded(base, ops[..|ops| - 1], key);
    }
  }

  /**
   What ShouldProcess answers after any history: a key without failures is always due;
   otherwise the deadline is the last failure plus the backoff of the failures so far,
   in whole seconds, and the key is due exactly after it.
   */
  lemma AnswerAfterHistory(base: real, ops: seq<Op>, key: string, now: int)
    requires base > 0.0
    ensures Failures(ops, key) == 0 ==> Answer(Run(base, ops), key, now) == (true, None)
    ensures Failures(ops, key) > 0 ==>
              && LastFailure(ops, key).Some?
              && var d := LastFailure(ops, key).value + Backoff(base, Failures(ops, key)).Floor * 1_000_000_000;
                 Answer(Run(base, ops), key, now) == (now > d, Some(d))
  {
    ClosedForm(base, ops, key);
    LastIsRecorded(base, ops, key);
    if Failures(ops, key) > 0 {
      BackoffGrows(base, Failures(ops, key) - 1);
    }
  }

  /** The documented progression is met from the first failure on exactly when base does not exceed the cap. */
  lemma CappedProgressionIff(base: real)
    requires base > 0.0
    ensures base <= MAX_BACKOFF_SECONDS <==> forall n: nat :: n >= 1 ==> Backoff(base, n) == Progression(base, n)
  {
    assert Progression(base, 1) == Min(base, MAX_BACKOFF_SECONDS) by { assert Geometric(base, 0) == base; }
    assert Backoff(base, 1) == base;
  }

  /** Geometric growth outruns linear growth. */
  lemma {:induction false} GeometricOutrunsLinear(base: real, n: nat)
    requires base > 0.0
    ensures Geometric(base, n) >= base && 2.0 * Geometric(base, n) >= base * n as real
  {
    if n > 0 {
      GeometricOutrunsLinear(base, n - 1);
      var r := (n - 1) as real;
      assert n as real == r + 1.0 && base * (r + 1.0) == base * r + base;
      assert Geometric(base, n) == Geometric(base, n - 1) * 1.5;
    }
  }

  /** Another failure never shortens the backoff. */
  lemma BackoffIsMonotone(base: real, n: nat)
    requires 0.0 < base <= MAX_BACKOFF_SECONDS
    ensures Backoff(base, n) <= Backoff(base, n + 1) <= MAX_BACKOFF_SECONDS
  {
    BackoffGrows(base, n);
    if n > 0 { BackoffGrows(base, n - 1); }
  }

  /** The backoff reaches the cap after finitely many failures, whatever the base, and stays there. */
  lemma BackoffReachesCap(base: real, n: nat)
    requires 0.0 < base <= MAX_BACKOFF_SECONDS && n >= 1 && base * (n - 1) as real >= 2400.0
    ensures Backoff(base, n) == MAX_BACKOFF_SECONDS
  {
    GeometricOutrunsLinear(base, n - 1);
  }

  /** With the interval of five seconds the cap is reached at the fifteenth failure and not before. */
  lemma FiveSecondsCapAtFifteen()
    ensures Backoff(5.0, 14) < MAX_BACKOFF_SECONDS && Backoff(5.0, 15) == MAX_BACKOFF_SECONDS
  {
    assert Pow(7) == 17.0859375;
    assert Pow(13) == 1.5 * 1.5 * 1.5 * 1.5 * 1.5 * 1.5 * Pow(7);
  }

  // ----- Deadlines -----

  function Clock(op: Op): Option<int> {
    if op.Delete? then None else Some(op.now)
  }

  /** The clock readings never go back. */
  predicate Timed(ops: seq<Op>) {
    forall i, j :: 0 <= i < j < |ops| && Clock(ops[i]).Some? && Clock(ops[j]).Some? ==> Clock(ops[i]).value <= Clock(ops[j]).value
  }

  predicate ReadBy(ops: seq<Op>, t: int) {
    forall i :: 0 <= i < |ops| && Clock(ops[i]).Some? ==> Clock(ops[i]).value <= t
  }

  ghost predicate Past(s: Entries, t: int) {
    forall k :: k in s && s[k].last.Some? ==> s[k].last.value <= t
  }

  ghost predicate InRange(s: Entries) {
    forall k :: k in s ==> 0.0 <= s[k].seconds <= MAX_BACKOFF_SECONDS && (s[k].last.Some? <==> s[k].seconds > 0.0)
  }

  lemma {:induction false} HistoryIsInRange(base: real, ops: seq<Op>)
    requires 0.0 < base <= MAX_BACKOFF_SECONDS
    ensures InRange(Run(base, ops))
  {
    if ops != [] {
      HistoryIsInRange(base, ops[..|ops| - 1]);
    }
  }

  lemma {:induction false} HistoryIsPast(base: real, ops: seq<Op>, t: int)
    requires ReadBy(ops, t)
    ensures Past(Run(base, ops), t)
  {
    if ops != [] {
      var front := ops[..|ops| - 1];
      assert forall i :: 0 <= i < |front| ==> front[i] == ops[i];
      HistoryIsPast(base, front, t);
    }
  }

  /** One more operation, other than a Delete of the key, never moves its deadline back. */
  lemma NextKeepsDeadline(base: real, ops: seq<Op>, n: nat, key: string)
    requires 0.0 < base <= MAX_BACKOFF_SECONDS && Timed(ops) && n < |ops| && ops[n] != Delete(key)
    ensures var d, d' := Deadline(Run(base, ops[..n]), key), Deadline(Run(base, ops[..n + 1]), key);
            d.Some? ==> d'.Some? && d.value <= d'.value
  {
    var s := Run(base, ops[..n]);
    assert ops[..n + 1][..n] == ops[..n];
    HistoryIsInRange(base, ops[..n]);
    if Clock(ops[n]).Some? {
      HistoryIsPast(base, ops[..n], Clock(ops[n]).value);
    }
    FailureMovesDeadline(base, Loaded(s, key));
  }

  /**
   In any history whose clock never goes back, from one moment to a later one a key's
   deadline never moves back unless the key is deleted in between, and it never lies
   more than the cap ahead of the key's last failure.
   */
  lemma {:induction false} DeadlinesMoveForward(base: real, ops: seq<Op>, m: nat, n: nat, key: string)
    requires 0.0 < base <= MAX_BACKOFF_SECONDS && Timed(ops)
    requires m <= n <= |ops| && forall i :: m <= i < n ==> ops[i] != Delete(key)
    ensures var earlier, later := Run(base, ops[..m]), Run(base, ops[..n]);
            && (Deadline(earlier, key).Some? ==>
                  Deadline(later, key).Some? && Deadline(earlier, key).value <= Deadline(later, key).value)
            && (Deadline(later, key).Some? ==>
                  && key in later && later[key].last.Some?
                  && Deadline(later, key).value <= later[key].last.value + 1200 * SECOND)
    decreases n - m
  {
    HistoryIsInRange(base, ops[..n]);
    if m < n {
      NextKeepsDeadline(base, ops, n - 1, key);
      DeadlinesMoveForward(base, ops, m, n - 1, key);
    }
  }

  lemma FailureMovesDeadline(base: real, x: Entry)
    requires 0.0 < base <= MAX_BACKOFF_SECONDS && 0.0 <= x.seconds <= MAX_BACKOFF_SECONDS
    ensures x.seconds.Floor <= Failed(base, x, 0).seconds.Floor <= 1200
  {
  }

  // ----- Asking changes nothing -----

  predicate Asks(op: Op) { op.ShouldProcess? }

  /** The history without its questions. */
  function Erased(ops: seq<Op>): seq<Op> {
    if ops == [] then []
    else
      var front, op := Erased(ops[..|ops| - 1]), ops[|ops| - 1];
      if Asks(op) then front else front + [op]
  }

  /** Questions never change any later answer for any key. */
  lemma {:induction false} AskingChangesNothing(base: real, ops: seq<Op>, key: string, now: int)
    ensures Loaded(Run(base, ops), key) == Loaded(Run(base, Erased(ops)), key)
    ensures Answer(Run(base, ops), key, now) == Answer(Run(base, Erased(ops)), key, now)
  {
    if ops != [] {
      var front, op := ops[..|ops| - 1], ops[|ops| - 1];
      AskingChangesNothing(base, front, key, now);
      if !Asks(op) {
        assert (Erased(front) + [op])[..|Erased(front)|] == Erased(front);
      }
    }
  }
}
