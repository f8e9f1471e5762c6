/**
 The status transition tables of params/params.go, the updates that are forced past
 them, and the token checks of auth/instance_middleware.go and
 auth/agent_middleware.go.
 */
module StatusTables {

  datatype InstanceStatus =
    | Running | Stopped | Error | PendingDelete | PendingForceDelete
    | Deleting | Deleted | PendingCreate | Creating | UnknownStatus

  datatype RunnerStatus =
    | Idle | Pending | Terminated | Installing | Failed | Active | Offline | Online | UnknownRunner

  /** InstanceStatusTransitions */
  function InstanceTransitions(s: InstanceStatus): set<InstanceStatus> {
    match s
    case Running => {PendingDelete, PendingForceDelete, Stopped, UnknownStatus}
    case Stopped => {PendingDelete, PendingForceDelete, Running, UnknownStatus}
    case Error => {PendingDelete, PendingForceDelete, UnknownStatus, Deleting}
    case PendingDelete => {Deleting, PendingForceDelete}
    case PendingForceDelete => {Deleting}
    case Deleting => {Error, Deleted}
    case Deleted => {}
    case PendingCreate => {PendingDelete, Creating, PendingForceDelete}
    case Creating => {Error, Running}
    case UnknownStatus =>
      {Running, Stopped, Error, PendingDelete, PendingForceDelete, Deleting, Deleted, PendingCreate, Creating}
  }

  /** RunnerStatusTransitions; the online and unknown statuses have no row. */
  function RunnerTransitions(s: RunnerStatus): set<RunnerStatus> {
    match s
    case Pending => {Failed, Installing, Terminated, Pending, Active}
    case Installing => {Failed, Idle, Terminated, Installing, Active, Offline}
    case Idle => {Offline, Active, Terminated, Idle}
    case Active => {Terminated, Active}
    case Failed => {Terminated, Failed}
    case Offline => {Idle, Active, Terminated, Offline}
    case Terminated => {Terminated}
    case _ => {}
  }

  /** An update to the present status always passes; any other must be in the table. */
  predicate InstanceStep(a: InstanceStatus, b: InstanceStatus) {
    b == a || b in InstanceTransitions(a)
  }

  predicate RunnerStep(a: RunnerStatus, b: RunnerStatus) {
    b == a || b in RunnerTransitions(a)
  }

  predicate IsInstanceRun(run: seq<InstanceStatus>) {
    forall i :: 0 <= i < |run| - 1 ==> InstanceStep(run[i], run[i + 1])
  }

  predicate IsRunnerRun(run: seq<RunnerStatus>) {
    forall i :: 0 <= i < |run| - 1 ==> RunnerStep(run[i], run[i + 1])
  }

  /** The table of instances the other way round: from which other statuses each can be entered. */
  lemma InstancePredecessors(a: InstanceStatus, b: InstanceStatus)
    requires a != b
    ensures InstanceStep(a, b) <==>
            match b
            case PendingCreate => a == UnknownStatus
            case Creating => a in {PendingCreate, UnknownStatus}
            case Running => a in {Creating, Stopped, UnknownStatus}
            case Stopped => a in {Running, UnknownStatus}
            case Error => a in {Creating, Deleting, UnknownStatus}
            case PendingDelete => a in {PendingCreate, Running, Stopped, Error, UnknownStatus}
            case PendingForceDelete => a in {PendingCreate, Running, Stopped, Error, PendingDelete, UnknownStatus}
            case Deleting => a in {Error, PendingDelete, PendingForceDelete, UnknownStatus}
            case Deleted => a in {Deleting, UnknownStatus}
            case UnknownStatus => a in {Running, Stopped, Error}
  {
  }

  /** The same for runners. */
  lemma RunnerPredecessors(a: RunnerStatus, b: RunnerStatus)
    requires a != b
    ensures RunnerStep(a, b) <==>
            match b
            case Pending => false
            case Installing => a == Pending
            case Idle => a in {Installing, Offline}
            case Offline => a in {Installing, Idle}
            case Active => a in {Pending, Installing, Idle, Offline}
            case Failed => a in {Pending, Installing}
            case Terminated => a in {Pending, Installing, Idle, Offline, Active, Failed}
            case Online => false
            case UnknownRunner => false
  {
  }

  // ----- Instances -----

  /** The instance is on its way out. */
  predicate TearingDown(s: InstanceStatus) {
    s == Error || s == PendingDelete || s == PendingForceDelete || s == Deleting
  }

  predicate InService(s: InstanceStatus) {
    s == PendingCreate || s == Creating || s == Running || s == Stopped
  }

  /** Once tearing down, an instance that avoids the unknown status is never in service again. */
  lemma {:induction false} TeardownIsOneWay(run: seq<InstanceStatus>, i: nat, j: nat)
    requires IsInstanceRun(run) && i <= j < |run| && TearingDown(run[i])
    requires forall k :: i <= k <= j ==> run[k] != UnknownStatus
    ensures TearingDown(run[j]) || run[j] == Deleted
    decreases j - i
  {
    if i < j {
      TeardownIsOneWay(run, i, j - 1);
      assert InstanceStep(run[j - 1], run[j - 1 + 1]);
    }
  }

  /** Among ordinary updates the unknown status is the only way back into service, and it is reachable from an error. */
  lemma UnknownReopensService()
    ensures IsInstanceRun([Error, UnknownStatus, Running]) && TearingDown(Error) && InService(Running)
  {
    var run := [Error, UnknownStatus, Running];
    assert InstanceStep(run[0], run[1]) && InstanceStep(run[1], run[2]);
  }

  /** Deleted is final. */
  lemma {:induction false} DeletedIsFinal(run: seq<InstanceStatus>, i: nat, j: nat)
    requires IsInstanceRun(run) && i <= j < |run| && run[i] == Deleted
    ensures run[j] == Deleted
    decreases j - i
  {
    if i < j {
      DeletedIsFinal(run, i, j - 1);
      assert InstanceStep(run[j - 1], run[j - 1 + 1]);
    }
  }

  /** An instance that avoids the unknown status becomes deleted only straight from deleting. */
  lemma {:induction false} DeletedComesFromDeleting(run: seq<InstanceStatus>, j: nat) returns (i: nat)
    requires IsInstanceRun(run) && j < |run| && run[j] == Deleted && run[0] != Deleted
    requires forall k :: 0 <= k <= j ==> run[k] != UnknownStatus
    ensures i < j && run[i] == Deleting && forall k :: i < k <= j ==> run[k] == Deleted
  {
    assert InstanceStep(run[j - 1], run[j - 1 + 1]);
    if run[j - 1] == Deleted {
      i := DeletedComesFromDeleting(run, j - 1);
    } else {
      i := j - 1;
    }
  }

  // ----- Token checks -----

  /** The parts of a parsed token's claims and of the instance record the middlewares look at. */
  datatype Claims = Claims(name: string, isAgent: bool, createAttempt: int)

  datatype Instance = Instance(id: string, runnerStatus: RunnerStatus, status: InstanceStatus, createAttempt: int)

  predicate BootstrapRunnerCheck(s: RunnerStatus) {
    s == Installing || s == Pending
  }

  predicate AgentRunnerCheck(s: RunnerStatus) {
    s != Active && s != Terminated && s != Failed
  }

  /** instanceMiddleware.Middleware after a valid token was parsed and the instance was found. */
  predicate BootstrapAccepts(c: Claims, i: Instance) {
    && !c.isAgent && c.name != "" && i.id != ""
    && BootstrapRunnerCheck(i.runnerStatus)
    && c.createAttempt == i.createAttempt
    && (i.status == Creating || i.status == Running)
  }

  /** agentMiddleware.Middleware after a valid token was parsed and the instance was found. */
  predicate AgentAccepts(c: Claims, i: Instance) {
    && c.isAgent && c.name != "" && i.id != ""
    && AgentRunnerCheck(i.runnerStatus)
    && c.createAttempt == i.createAttempt
    && i.status == Running
  }

  /** Once a runner-status check refuses, it refuses in every later state of the run. */
  lemma {:induction false} RunnerChecksArePrefixClosed(run: seq<RunnerStatus>, i: nat, j: nat)
    requires IsRunnerRun(run) && i <= j < |run|
    ensures !BootstrapRunnerCheck(run[i]) ==> !BootstrapRunnerCheck(run[j])
    ensures !AgentRunnerCheck(run[i]) ==> !AgentRunnerCheck(run[j])
    decreases j - i
  {
    if i < j {
      RunnerChecksArePrefixClosed(run, i, j - 1);
      assert RunnerStep(run[j - 1], run[j - 1 + 1]);
    }
  }

  predicate Accepts(c: Claims, i: Instance) {
    BootstrapAccepts(c, i) || AgentAccepts(c, i)
  }

  /** Which statuses a token that fits the instance is accepted in. */
  lemma AcceptedStatuses(c: Claims, i: Instance)
    requires c.name != "" && i.id != "" && c.createAttempt == i.createAttempt
    ensures BootstrapAccepts(c, i) <==>
            !c.isAgent && (i.runnerStatus, i.status) in
              {(Pending, Creating), (Pending, Running), (Installing, Creating), (Installing, Running)}
    ensures AgentAccepts(c, i) <==>
            c.isAgent && i.status == Running && i.runnerStatus in {Pending, Installing, Idle, Offline, Online, UnknownRunner}
  {
  }

  function At(i: Instance, runner: RunnerStatus, status: InstanceStatus): Instance {
    i.(runnerStatus := runner, status := status)
  }

  /** The life of an instance that comes up, runs a job and is removed. */
  function Life(i: Instance): seq<Instance> {
    [At(i, Pending, PendingCreate), At(i, Pending, Creating), At(i, Installing, Creating), At(i, Installing, Running),
     At(i, Idle, Running), At(i, Offline, Running), At(i, Idle, Running), At(i, Active, Running), At(i, Terminated, Running),
     At(i, Terminated, PendingDelete), At(i, Terminated, Deleting), At(i, Terminated, Deleted)]
  }

  /** Ordinary updates allow that life; its bootstrap token is accepted exactly while it is created and installs, its agent token exactly while it runs without a job. */
  lemma LifeIsAllowed(i: Instance, c: Claims, n: nat)
    requires i.id != "" && c.name != "" && c.createAttempt == i.createAttempt && n < |Life(i)|
    ensures n > 0 ==> OrdinaryUpdate(Life(i)[n - 1], Life(i)[n])
    ensures BootstrapAccepts(c, Life(i)[n]) <==> !c.isAgent && 1 <= n <= 3
    ensures AgentAccepts(c, Life(i)[n]) <==> c.isAgent && 3 <= n <= 6
  {
  }

  /** From every status, ordinary updates allow the instance to be deleted, from all but unknown by way of deleting. */
  lemma DeletionIsAllowed(s: InstanceStatus) returns (run: seq<InstanceStatus>)
    ensures IsInstanceRun(run) && run != [] && run[0] == s && run[|run| - 1] == Deleted
    ensures s != UnknownStatus && s != Deleted ==> |run| >= 2 && run[|run| - 2] == Deleting
  {
    var tail := [Deleting, Deleted];
    run := match s
      case Deleted => [Deleted]
      case Deleting => tail
      case UnknownStatus => [s, Deleted]
      case Creating => [s, Error] + tail
      case Error => [s] + tail
      case PendingForceDelete => [s] + tail
      case PendingDelete => [s] + tail
      case _ => [s, PendingDelete] + tail;
  }

  // ----- Runs with forced updates -----

  const MAX_CREATE_ATTEMPTS := 5

  /** UpdateInstance: both statuses obey the tables, and the create attempt stays. */
  predicate OrdinaryUpdate(a: Instance, b: Instance) {
    && b.id == a.id && b.createAttempt == a.createAttempt
    && RunnerStep(a.runnerStatus, b.runnerStatus) && InstanceStep(a.status, b.status)
  }

  /** ForceUpdateInstance on the way out: any status is replaced by an error or a deletion status. */
  predicate ForcedTeardown(a: Instance, b: Instance) {
    b == a.(status := b.status) && Leaving(b.status)
  }

  /** setInstanceRunnerStatus always forces; it is called when a job starts and when it ends. */
  predicate ForcedRunnerStatus(a: Instance, b: Instance) {
    b == a.(runnerStatus := b.runnerStatus) && (b.runnerStatus == Active || b.runnerStatus == Terminated)
  }

  /** The retry of a failed instance; its forced update does not look at the status again. */
  predicate Retry(a: Instance, b: Instance) {
    && a.createAttempt < MAX_CREATE_ATTEMPTS
    && b == a.(status := PendingCreate, runnerStatus := Pending, createAttempt := a.createAttempt + 1)
  }

  predicate Step(a: Instance, b: Instance) {
    OrdinaryUpdate(a, b) || ForcedTeardown(a, b) || ForcedRunnerStatus(a, b) || Retry(a, b)
  }

  predicate IsRun(run: seq<Instance>) {
    forall i :: 0 <= i < |run| - 1 ==> Step(run[i], run[i + 1])
  }

  predicate Leaving(s: InstanceStatus) {
    TearingDown(s) || s == Deleted
  }

  predicate AvoidsUnknown(run: seq<Instance>) {
    forall k :: 0 <= k < |run| ==> run[k].status != UnknownStatus
  }

  /** Attempts only grow, and within one attempt whatever closed stays closed. */
  lemma {:induction false} AttemptsNeverReopen(run: seq<Instance>, i: nat, j: nat)
    requires IsRun(run) && i <= j < |run|
    ensures run[j].id == run[i].id && run[i].createAttempt <= run[j].createAttempt
    ensures run[j].createAttempt <= MAX_CREATE_ATTEMPTS || run[j].createAttempt == run[i].createAttempt
    ensures run[j].createAttempt == run[i].createAttempt ==>
              && (!BootstrapRunnerCheck(run[i].runnerStatus) ==> !BootstrapRunnerCheck(run[j].runnerStatus))
              && (!AgentRunnerCheck(run[i].runnerStatus) ==> !AgentRunnerCheck(run[j].runnerStatus))
              && (Leaving(run[i].status) && (forall k :: i <= k <= j ==> run[k].status != UnknownStatus) ==> Leaving(run[j].status))
    decreases j - i
  {
    if i < j {
      AttemptsNeverReopen(run, i, j - 1);
      assert Step(run[j - 1], run[j - 1 + 1]);
    }
  }

  /**
   Over every run, forced updates included: a token of this or an earlier attempt is
   never accepted again once its runner-status check refused, or once the instance was
   leaving (while it avoids the unknown status), or once a later attempt began.
   */
  lemma RefusalIsPermanent(run: seq<Instance>, i: nat, j: nat, c: Claims)
    requires IsRun(run) && i <= j < |run| && c.createAttempt <= run[i].createAttempt
    ensures Leaving(run[i].status) && (forall k :: i <= k <= j ==> run[k].status != UnknownStatus) ==> !Accepts(c, run[j])
    ensures !BootstrapRunnerCheck(run[i].runnerStatus) ==> !BootstrapAccepts(c, run[j])
    ensures !AgentRunnerCheck(run[i].runnerStatus) ==> !AgentAccepts(c, run[j])
    ensures c.createAttempt < run[i].createAttempt ==> !Accepts(c, run[j])
  {
    AttemptsNeverReopen(run, i, j);
  }

  // ----- Which tokens can still be accepted -----

  lemma Chain(r: seq<Instance>, q: seq<Instance>)
    requires IsRun(r) && IsRun(q) && r != [] && q != [] && r[|r| - 1] == q[0]
    ensures IsRun(r + q[1..]) && (AvoidsUnknown(r) && AvoidsUnknown(q) ==> AvoidsUnknown(r + q[1..]))
    ensures (r + q[1..])[0] == r[0] && (r + q[1..])[|r + q[1..]| - 1] == q[|q| - 1]
  {
    var p := r + q[1..];
    forall i | 0 <= i < |p| - 1 ensures Step(p[i], p[i + 1]) {
      if i < |r| - 1 {
        assert Step(r[i], r[i + 1]);
      } else {
        assert Step(q[i - |r| + 1], q[i - |r| + 1 + 1]);
      }
    }
  }

  /** An instance that is torn down can end in an error. */
  lemma TeardownCanFail(x: Instance) returns (run: seq<Instance>)
    requires TearingDown(x.status)
    ensures IsRun(run) && AvoidsUnknown(run) && run != [] && run[0] == x && run[|run| - 1] == x.(status := Error)
  {
    if x.status == Error {
      run := [x];
    } else {
      run := [x, x.(status := Deleting), x.(status := Error)];
    }
  }

  /** A failed instance can be retried up to any later attempt and then run. */
  lemma {:induction false} RetriesCanSucceed(x: Instance, n: int) returns (run: seq<Instance>)
    requires x.status == Error && x.createAttempt < n <= MAX_CREATE_ATTEMPTS
    ensures IsRun(run) && AvoidsUnknown(run) && run != [] && run[0] == x
    ensures run[|run| - 1] == Instance(x.id, Pending, Running, n)
    decreases n - x.createAttempt
  {
    var y := x.(status := PendingCreate, runnerStatus := Pending, createAttempt := x.createAttempt + 1);
    if y.createAttempt == n {
      run := [x, y, y.(status := Creating), y.(status := Running)];
    } else {
      var failed := y.(status := Error);
      var rest := RetriesCanSucceed(failed, n);
      run := [x, y, y.(status := Creating), failed];
      Chain(run, rest);
      run := run + rest[1..];
    }
  }

  /** From an instance being torn down, exactly the tokens of a later attempt can be accepted, short of the unknown status. */
  lemma TokenCanBeAcceptedIff(x: Instance, c: Claims)
    requires TearingDown(x.status) && x.createAttempt <= MAX_CREATE_ATTEMPTS
    ensures (exists run :: IsRun(run) && AvoidsUnknown(run) && run != [] && run[0] == x && Accepts(c, run[|run| - 1])) <==>
            (c.name != "" && x.id != "" && x.createAttempt < c.createAttempt <= MAX_CREATE_ATTEMPTS)
  {
    if run :| IsRun(run) && AvoidsUnknown(run) && run != [] && run[0] == x && Accepts(c, run[|run| - 1]) {
      AttemptsNeverReopen(run, 0, |run| - 1);
    }
    if c.name != "" && x.id != "" && x.createAttempt < c.createAttempt <= MAX_CREATE_ATTEMPTS {
      var r := TeardownCanFail(x);
      var q := RetriesCanSucceed(x.(status := Error), c.createAttempt);
      Chain(r, q);
      var run := r + q[1..];
      assert run[0] == x && Accepts(c, run[|run| - 1]);
    }
  }

  /** Why the unknown status is excepted: through it, the same token is accepted again after any teardown its runner status survived. */
  lemma UnknownReadmitsToken(x: Instance, c: Claims) returns (run: seq<Instance>)
    requires TearingDown(x.status) && Accepts(c, x.(status := Running))
    ensures IsRun(run) && run != [] && run[0] == x && Accepts(c, run[|run| - 1])
  {
    run := TeardownCanFail(x);
    var back := [x.(status := Error), x.(status := UnknownStatus), x.(status := Running)];
    Chain(run, back);
    run := run + back[1..];
  }
}
