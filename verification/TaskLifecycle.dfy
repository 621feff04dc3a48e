/**
 Background tasks: the task table with its lease guards, any number of workers and recovery passes
 working from copies of rows, crashes, and a registry of task types that does not change.
 */
module TaskLifecycle {
  import opened Common

  type Time = int
  type Token = nat

  const ATTEMPT_LIMIT: nat := 32

  datatype TaskKey = TaskKey(app: string, id: string)

  datatype Status = Queued | Running | Succeeded | Failed | RetryScheduled | Cancelled

  datatype ErrorClass = NoError | Retryable | NonRetryable | DeadlineError | LeaseLostError | CancelledError

  datatype Lease = Lease(token: Token, expires: Time)

  datatype Task = Task(kind: string, status: Status, attempt: nat, maxAttempts: nat, deadline: Time, availableAt: Time,
                       lease: Option<Lease>, error: ErrorClass, createdAt: Time)

  /** Registered types, and whether they allow automatic retries. */
  type Registry = map<string, bool>

  type Table = map<TaskKey, Task>

  predicate Terminal(t: Task) {
    t.status == Succeeded || t.status == Failed || t.status == Cancelled
  }

  predicate Waiting(t: Task) {
    t.status == Queued || t.status == RetryScheduled
  }

  // ---- the table's guarded writes ----

  /** ValidateNewTask, as far as it concerns the life cycle. */
  predicate ValidNew(t: Task) {
    && t.status == Queued && t.attempt == 1 && 1 <= t.maxAttempts <= ATTEMPT_LIMIT
    && t.createdAt < t.deadline && t.createdAt <= t.availableAt < t.deadline && t.lease.None? && t.error == NoError
  }

  predicate Claimable(t: Task, startedAt: Time) {
    Waiting(t) && t.lease.None? && t.availableAt <= startedAt
  }

  /** The guard of every write by the worker that claimed the task. */
  predicate HoldsLease(t: Task, token: Token, at: Time) {
    t.status == Running && t.lease.Some? && t.lease.value.token == token && at <= t.lease.value.expires
  }

  /** The guard of the recovery writes: the same lease, but past its end. */
  predicate LeaseDead(t: Task, token: Token, at: Time) {
    t.status == Running && t.lease.Some? && t.lease.value.token == token && t.lease.value.expires < at
  }

  datatype Write = Succeed | Fail(error: ErrorClass) | Retry(availableAt: Time) | CancelRunning

  /** The row after one of the writes that end a claim. */
  function After(t: Task, w: Write): Task {
    match w
    case Succeed => t.(status := Succeeded, lease := None, error := NoError)
    case Fail(e) => t.(status := Failed, lease := None, error := e)
    case Retry(at) => t.(status := RetryScheduled, lease := None, attempt := t.attempt + 1, availableAt := at)
    case CancelRunning => t.(status := Cancelled, lease := None, error := CancelledError)
  }

  /** What the store checks in a write's arguments, against the writer's own copy of the row. */
  predicate WriteOk(copy: Task, w: Write, at: Time) {
    && (w.Retry? ==> at < w.availableAt && copy.attempt < copy.maxAttempts)
    && (w.Fail? ==> w.error != NoError)
  }

  // ---- the scheduler's decisions ----

  datatype Context = Live | DeadlineExceeded | ContextCancelled

  datatype HandlerResult = HandlerOk | TimedOut | RetryableFailure | OtherFailure

  /**
   How an execution ended: its context, whether it was cancelled on request, a failed renewal, the
   handler's answer.
   */
  datatype Ending = Ending(context: Context, requested: bool, renewalFailed: bool, result: HandlerResult)

  predicate RetryAllowed(registry: Registry, t: Task, e: ErrorClass) {
    (e == Retryable || e == LeaseLostError) && t.kind in registry && registry[t.kind] && t.attempt < t.maxAttempts
  }

  /** transitionRetry: a retry that would start at or after the deadline becomes a failure. */
  function RetryOrFail(t: Task, e: ErrorClass, now: Time, delay: nat): Write {
    if now + delay < t.deadline then Retry(now + delay) else Fail(e)
  }

  function OnFailure(registry: Registry, t: Task, e: ErrorClass, now: Time, delay: nat): Write {
    if RetryAllowed(registry, t, e) then RetryOrFail(t, e, now, delay) else Fail(e)
  }

  /** finishExecution: the write an ended execution attempts; None leaves the task running for recovery. */
  function Finish(registry: Registry, t: Task, ending: Ending, now: Time, delay: nat): Option<Write> {
    match ending.context
    case DeadlineExceeded => Some(Fail(DeadlineError))
    case ContextCancelled =>
      if ending.requested then Some(CancelRunning)
      else if ending.renewalFailed then Some(OnFailure(registry, t, LeaseLostError, now, delay))
      else None
    case Live =>
      match ending.result
      case HandlerOk => Some(Succeed)
      case TimedOut => Some(Fail(DeadlineError))
      case RetryableFailure => Some(OnFailure(registry, t, Retryable, now, delay))
      case OtherFailure => Some(Fail(NonRetryable))
  }

  /** recoverDeadTasks on one task. */
  function Recover(registry: Registry, t: Task, now: Time, delay: nat): Write {
    if t.deadline <= now then Fail(DeadlineError) else OnFailure(registry, t, LeaseLostError, now, delay)
  }

  // ---- the state machine ----

  datatype Stage = Claimed | InHandler | Ended

  /** A worker holds the row as the claim returned it. */
  datatype Worker = Worker(key: TaskKey, copy: Task, claimedAt: Time, stage: Stage)

  /** A dead task as a recovery pass listed it. */
  datatype Pass = Pass(key: TaskKey, copy: Task, at: Time)

  /** `claims` says which task and attempt each token was drawn for; `handled` are the claims whose handler ran. */
  datatype Claim = Claim(key: TaskKey, attempt: nat)

  datatype State = State(now: Time, table: Table, workers: map<Token, Worker>, passes: map<nat, Pass>,
                         claims: map<Token, Claim>, handled: set<Token>)

  datatype Action =
    | Tick(time: Time)
    | Create(key: TaskKey, task: Task)
    | ClaimTask(key: TaskKey, token: Token, startedAt: Time, expires: Time)
    | RefuseClaimed(token: Token, error: ErrorClass, at: Time)
    | CancelClaimed(token: Token, at: Time)
    | StartHandler(token: Token)
    | EndHandler(token: Token, ending: Ending, at: Time, delay: nat)
    | Renew(token: Token, at: Time, expires: Time)
    | ListDead(pass: nat, key: TaskKey, at: Time)
    | RecoverDead(pass: nat, delay: nat)
    | CancelQueued(key: TaskKey)
    | Crash

  predicate Enabled(registry: Registry, s: State, a: Action) {
    match a
    case Tick(time) => s.now <= time
    case Create(key, task) => key !in s.table && ValidNew(task) && task.kind in registry
    case ClaimTask(key, token, startedAt, expires) =>
      key in s.table && Claimable(s.table[key], startedAt) && startedAt <= s.now && startedAt < expires
        && token !in s.claims
    case RefuseClaimed(token, error, at) => token in s.workers && s.workers[token].stage == Claimed && at <= s.now
    case CancelClaimed(token, at) => token in s.workers && s.workers[token].stage == Claimed && at <= s.now
    case StartHandler(token) =>
      token in s.workers && s.workers[token].stage == Claimed
      && s.workers[token].claimedAt < s.workers[token].copy.deadline && s.workers[token].copy.kind in registry
    case EndHandler(token, ending, at, delay) =>
      token in s.workers && s.workers[token].stage == InHandler && at <= s.now
    case Renew(token, at, expires) => token in s.workers && at < expires && at <= s.now
    case ListDead(pass, key, at) =>
      && pass !in s.passes && at <= s.now && key in s.table && s.table[key].lease.Some?
      && LeaseDead(s.table[key], s.table[key].lease.value.token, at)
    case RecoverDead(pass, delay) => pass in s.passes
    case CancelQueued(key) => key in s.table && Waiting(s.table[key])
    case Crash => true
  }

  /** A worker's write: it changes the row only under its unexpired lease. */
  function WorkerWrite(s: State, token: Token, w: Write, at: Time): State
    requires token in s.workers
  {
    var k, copy := s.workers[token].key, s.workers[token].copy;
    s.(workers := s.workers[token := s.workers[token].(stage := Ended)],
       table := if k in s.table && WriteOk(copy, w, at) && HoldsLease(s.table[k], token, at)
                then s.table[k := After(s.table[k], w)] else s.table)
  }

  function AfterRecovery(registry: Registry, s: State, pass: nat, delay: nat): State
    requires pass in s.passes
  {
    var p := s.passes[pass];
    var w := Recover(registry, p.copy, p.at, delay);
    s.(passes := s.passes - {pass},
       table := if p.key in s.table && p.copy.lease.Some? && WriteOk(p.copy, w, p.at)
                   && LeaseDead(s.table[p.key], p.copy.lease.value.token, p.at)
                then s.table[p.key := After(s.table[p.key], w)] else s.table)
  }

  function AfterClaim(s: State, key: TaskKey, token: Token, startedAt: Time, expires: Time): State
    requires key in s.table
  {
    var t := s.table[key].(status := Running, lease := Some(Lease(token, expires)));
    s.(table := s.table[key := t], workers := s.workers[token := Worker(key, t, startedAt, Claimed)],
       claims := s.claims[token := Claim(key, t.attempt)])
  }

  function AfterRenew(s: State, token: Token, at: Time, expires: Time): State
    requires token in s.workers
  {
    var k := s.workers[token].key;
    if k in s.table && HoldsLease(s.table[k], token, at)
    then s.(table := s.table[k := s.table[k].(lease := Some(Lease(token, expires)))]) else s
  }

  function Apply(registry: Registry, s: State, a: Action): State
    requires Enabled(registry, s, a)
  {
    match a
    case Tick(time) => s.(now := time)
    case Create(key, task) => s.(table := s.table[key := task])
    case ClaimTask(key, token, startedAt, expires) => AfterClaim(s, key, token, startedAt, expires)
    case RefuseClaimed(token, error, at) => WorkerWrite(s, token, Fail(error), at)
    case CancelClaimed(token, at) => WorkerWrite(s, token, CancelRunning, at)
    case StartHandler(token) =>
      s.(workers := s.workers[token := s.workers[token].(stage := InHandler)], handled := s.handled + {token})
    case EndHandler(token, ending, at, delay) =>
      var w := Finish(registry, s.workers[token].copy, ending, at, delay);
      if w.Some? then WorkerWrite(s, token, w.value, at)
      else s.(workers := s.workers[token := s.workers[token].(stage := Ended)])
    case Renew(token, at, expires) => AfterRenew(s, token, at, expires)
    case ListDead(pass, key, at) => s.(passes := s.passes[pass := Pass(key, s.table[key], at)])
    case RecoverDead(pass, delay) => AfterRecovery(registry, s, pass, delay)
    case CancelQueued(key) =>
      s.(table := s.table[key := s.table[key].(status := Cancelled, lease := None, error := CancelledError)])
    case Crash => s.(workers := map[], passes := map[])
  }

  const INIT := State(0, map[], map[], map[], map[], {})

  ghost predicate Step(registry: Registry, s: State, a: Action, s': State) {
    Enabled(registry, s, a) && s' == Apply(registry, s, a)
  }

  ghost predicate Behaviour(registry: Registry, states: seq<State>, acts: seq<Action>) {
    && |states| == |acts| + 1 && states[0] == INIT
    && forall i {:trigger Step(registry, states[i], acts[i], states[i + 1])} :: 0 <= i < |acts| ==>
         Step(registry, states[i], acts[i], states[i + 1])
  }

  lemma StepAt(registry: Registry, states: seq<State>, acts: seq<Action>, i: nat)
    requires Behaviour(registry, states, acts) && i < |acts|
    ensures Step(registry, states[i], acts[i], states[i + 1])
  {
  }

  ghost predicate Reachable(registry: Registry, s: State) {
    exists states, acts :: Behaviour(registry, states, acts) && states[|acts|] == s
  }

  // ---- the invariant ----

  ghost function ClaimsOf(s: State, key: TaskKey): set<Token> {
    set token | token in s.claims && s.claims[token].key == key
  }

  ghost predicate TaskOk(registry: Registry, s: State, key: TaskKey)
    requires key in s.table
  {
    var t := s.table[key];
    && 1 <= t.attempt <= t.maxAttempts <= ATTEMPT_LIMIT
    && t.availableAt < t.deadline
    && (t.lease.Some? <==> t.status == Running)
    && (t.lease.Some? ==> t.lease.value.token in s.claims && s.claims[t.lease.value.token] == Claim(key, t.attempt))
    && t.kind in registry && (!registry[t.kind] ==> t.attempt == 1)
    && (Waiting(t) ==> |ClaimsOf(s, key)| == t.attempt - 1)
    && (t.status == Running ==> |ClaimsOf(s, key)| == t.attempt)
    && |ClaimsOf(s, key)| <= t.attempt
  }

  /** A copy agrees with the row in what never changes, and in the attempt while the row has the copy's lease token. */
  ghost predicate CopyOk(s: State, key: TaskKey, copy: Task) {
    && key in s.table && copy.lease.Some?
    && var t := s.table[key];
       && copy.kind == t.kind && copy.maxAttempts == t.maxAttempts && copy.deadline == t.deadline
       && (t.lease.Some? && t.lease.value.token == copy.lease.value.token ==> copy.attempt == t.attempt)
       && copy.lease.value.token in s.claims
  }

  ghost predicate WorkerOk(s: State, token: Token)
    requires token in s.workers
  {
    var w := s.workers[token];
    && CopyOk(s, w.key, w.copy) && w.copy.lease.value.token == token
    && (w.stage == Claimed ==> token !in s.handled)
  }

  ghost predicate ClaimOk(s: State, token: Token)
    requires token in s.claims
  {
    var c := s.claims[token];
    && c.key in s.table && 1 <= c.attempt
    && c.attempt + (if Waiting(s.table[c.key]) then 1 else 0) <= s.table[c.key].attempt
  }

  ghost predicate Inv(registry: Registry, s: State) {
    && (forall key :: key in s.table ==> TaskOk(registry, s, key))
    && (forall token :: token in s.workers ==> WorkerOk(s, token))
    && (forall pass :: pass in s.passes ==> CopyOk(s, s.passes[pass].key, s.passes[pass].copy))
    && (forall token :: token in s.claims ==> ClaimOk(s, token))
    && s.handled <= s.claims.Keys
    && (forall a, b :: a in s.claims && b in s.claims && a != b ==> s.claims[a] != s.claims[b])
  }

  /** What any write other than a claim may make of a row. */
  ghost predicate Evolves(registry: Registry, t: Task, t': Task) {
    && t'.kind == t.kind && t'.maxAttempts == t.maxAttempts && t'.deadline == t.deadline && t'.availableAt < t'.deadline
    && (t'.lease.Some? <==> t'.status == Running)
    && (t'.status == Running ==>
          t.status == Running && t.lease.Some? && t'.lease.value.token == t.lease.value.token
            && t'.attempt == t.attempt)
    && (!Waiting(t') ==> t'.attempt == t.attempt)
    && (Waiting(t') ==>
          t.status == Running && t'.attempt == t.attempt + 1 <= t.maxAttempts && t.kind in registry && registry[t.kind])
    && (t' != t ==> !Terminal(t))
  }

  lemma RowTask(registry: Registry, s: State, s': State, key: TaskKey)
    requires key in s.table && TaskOk(registry, s, key) && key in s'.table && s'.claims == s.claims
    requires s'.table[key] == s.table[key] || Evolves(registry, s.table[key], s'.table[key])
    ensures TaskOk(registry, s', key)
  {
    assert ClaimsOf(s', key) == ClaimsOf(s, key);
  }

  lemma RowCopy(registry: Registry, s: State, s': State, key: TaskKey, copy: Task)
    requires CopyOk(s, key, copy) && key in s'.table && s'.claims == s.claims
    requires s'.table[key] == s.table[key] || Evolves(registry, s.table[key], s'.table[key])
    ensures CopyOk(s', key, copy)
  {
  }

  lemma RowClaim(registry: Registry, s: State, s': State, token: Token)
    requires token in s.claims && ClaimOk(s, token) && s'.claims == s.claims && s.claims[token].key in s'.table
    requires var k := s.claims[token].key; s'.table[k] == s.table[k] || Evolves(registry, s.table[k], s'.table[k])
    ensures ClaimOk(s', token)
  {
  }

  /** A write to one row. */
  lemma RowKeeps(registry: Registry, s: State, key: TaskKey, t': Task)
    requires Inv(registry, s) && key in s.table && Evolves(registry, s.table[key], t')
    ensures Inv(registry, s.(table := s.table[key := t']))
  {
    hide TaskOk, CopyOk, ClaimOk, Evolves;
    var s' := s.(table := s.table[key := t']);
    forall k | k in s'.table ensures TaskOk(registry, s', k) {
      RowTask(registry, s, s', k);
    }
    forall token | token in s'.workers ensures WorkerOk(s', token) {
      assert WorkerOk(s, token);
      CopyKey(s, s.workers[token].key, s.workers[token].copy);
      RowCopy(registry, s, s', s.workers[token].key, s.workers[token].copy);
    }
    forall pass | pass in s'.passes ensures CopyOk(s', s'.passes[pass].key, s'.passes[pass].copy) {
      CopyKey(s, s.passes[pass].key, s.passes[pass].copy);
      RowCopy(registry, s, s', s.passes[pass].key, s.passes[pass].copy);
    }
    forall token | token in s'.claims ensures ClaimOk(s', token) {
      ClaimKey(s, token);
      RowClaim(registry, s, s', token);
    }
  }

  lemma CopyKey(s: State, key: TaskKey, copy: Task)
    requires CopyOk(s, key, copy)
    ensures key in s.table && copy.lease.Some? && copy.lease.value.token in s.claims
  {
  }

  lemma ClaimKey(s: State, token: Token)
    requires token in s.claims && ClaimOk(s, token)
    ensures s.claims[token].key in s.table && s.claims[token].attempt <= s.table[s.claims[token].key].attempt
  {
  }

  ghost predicate MovedOn(s: State, s': State, token: Token)
    requires token in s.workers && token in s'.workers
  {
    && s'.workers[token].key == s.workers[token].key && s'.workers[token].copy == s.workers[token].copy
    && (s'.workers[token].stage == Claimed ==> s.workers[token].stage == Claimed && token !in s'.handled - s.handled)
  }

  /** Moving a worker on, marking its handler as run, dropping or adding passes, the clock. */
  lemma RestKeeps(registry: Registry, s: State, s': State)
    requires Inv(registry, s) && s'.table == s.table && s'.claims == s.claims
    requires forall token :: token in s'.workers ==> token in s.workers && MovedOn(s, s', token)
    requires forall pass ::
               pass in s'.passes && pass !in s.passes ==> CopyOk(s, s'.passes[pass].key, s'.passes[pass].copy)
    requires forall pass :: pass in s'.passes && pass in s.passes ==> s'.passes[pass] == s.passes[pass]
    requires s'.handled <= s.handled + s.workers.Keys
    ensures Inv(registry, s')
  {
    forall k | k in s'.table ensures TaskOk(registry, s', k) {
      assert TaskOk(registry, s, k);
      assert ClaimsOf(s', k) == ClaimsOf(s, k);
    }
    forall token | token in s'.workers ensures WorkerOk(s', token) {
      assert WorkerOk(s, token);
    }
    forall pass | pass in s'.passes ensures CopyOk(s', s'.passes[pass].key, s'.passes[pass].copy) {
      assert pass in s.passes ==> CopyOk(s, s.passes[pass].key, s.passes[pass].copy);
    }
    forall token | token in s'.claims ensures ClaimOk(s', token) {
      assert ClaimOk(s, token);
    }
    forall token | token in s'.handled ensures token in s'.claims {
      assert token in s.workers ==> WorkerOk(s, token);
    }
  }

  ghost predicate Decided(registry: Registry, copy: Task, w: Write) {
    w.Retry? ==> copy.kind in registry && registry[copy.kind] && w.availableAt < copy.deadline
  }

  lemma WriteEvolves(registry: Registry, s: State, key: TaskKey, copy: Task, w: Write, at: Time)
    requires key in s.table && TaskOk(registry, s, key) && CopyOk(s, key, copy)
    requires Decided(registry, copy, w) && WriteOk(copy, w, at)
    requires HoldsLease(s.table[key], copy.lease.value.token, at) || LeaseDead(s.table[key], copy.lease.value.token, at)
    ensures Evolves(registry, s.table[key], After(s.table[key], w))
  {
  }

  lemma WorkerWriteKeeps(registry: Registry, s: State, token: Token, w: Write, at: Time)
    requires Inv(registry, s) && token in s.workers && Decided(registry, s.workers[token].copy, w)
    ensures Inv(registry, WorkerWrite(s, token, w, at))
  {
    hide TaskOk, CopyOk, ClaimOk, Evolves, After;
    var k, copy := s.workers[token].key, s.workers[token].copy;
    var s' := WorkerWrite(s, token, w, at);
    assert WorkerOk(s, token);
    CopyKey(s, k, copy);
    var mid := s.(table := s'.table);
    if WriteOk(copy, w, at) && HoldsLease(s.table[k], token, at) {
      WriteEvolves(registry, s, k, copy, w, at);
      RowKeeps(registry, s, k, After(s.table[k], w));
    } else {
      assert mid == s;
    }
    hide Inv;
    RestKeeps(registry, mid, s');
  }

  lemma RecoverDecides(registry: Registry, copy: Task, at: Time, delay: nat)
    ensures Decided(registry, copy, Recover(registry, copy, at, delay))
  {
  }

  lemma FinishDecides(registry: Registry, copy: Task, ending: Ending, at: Time, delay: nat)
    ensures var w := Finish(registry, copy, ending, at, delay); w.Some? ==> Decided(registry, copy, w.value)
  {
  }

  lemma RecoveryKeeps(registry: Registry, s: State, pass: nat, delay: nat)
    requires Inv(registry, s) && pass in s.passes
    ensures Inv(registry, AfterRecovery(registry, s, pass, delay))
  {
    hide TaskOk, CopyOk, ClaimOk, Evolves, After, Recover;
    var p := s.passes[pass];
    var w := Recover(registry, p.copy, p.at, delay);
    RecoverDecides(registry, p.copy, p.at, delay);
    var s' := AfterRecovery(registry, s, pass, delay);
    CopyKey(s, p.key, p.copy);
    var mid := s.(table := s'.table);
    if WriteOk(p.copy, w, p.at) && LeaseDead(s.table[p.key], p.copy.lease.value.token, p.at) {
      WriteEvolves(registry, s, p.key, p.copy, w, p.at);
      RowKeeps(registry, s, p.key, After(s.table[p.key], w));
    } else {
      assert mid == s;
    }
    hide Inv;
    RestKeeps(registry, mid, s');
  }

  lemma NewTaskOk(registry: Registry, s: State, s': State, key: TaskKey)
    requires key !in s.table && key in s'.table && ValidNew(s'.table[key]) && s'.table[key].kind in registry
    requires s'.claims == s.claims && forall token :: token in s.claims ==> s.claims[token].key in s.table
    ensures TaskOk(registry, s', key)
  {
    assert ClaimsOf(s', key) == {};
  }

  lemma CreateKeeps(registry: Registry, s: State, key: TaskKey, task: Task)
    requires Inv(registry, s) && key !in s.table && ValidNew(task) && task.kind in registry
    ensures Inv(registry, s.(table := s.table[key := task]))
  {
    hide TaskOk, CopyOk, ClaimOk, ValidNew;
    var s' := s.(table := s.table[key := task]);
    forall token | token in s'.claims ensures ClaimOk(s', token) && s.claims[token].key in s.table {
      ClaimKey(s, token);
      RowClaim(registry, s, s', token);
    }
    forall k | k in s'.table ensures TaskOk(registry, s', k) {
      if k == key {
        NewTaskOk(registry, s, s', key);
      } else {
        RowTask(registry, s, s', k);
      }
    }
    forall token | token in s'.workers ensures WorkerOk(s', token) {
      assert WorkerOk(s, token);
      CopyKey(s, s.workers[token].key, s.workers[token].copy);
      RowCopy(registry, s, s', s.workers[token].key, s.workers[token].copy);
    }
    forall pass | pass in s'.passes ensures CopyOk(s', s'.passes[pass].key, s'.passes[pass].copy) {
      CopyKey(s, s.passes[pass].key, s.passes[pass].copy);
      RowCopy(registry, s, s', s.passes[pass].key, s.passes[pass].copy);
    }
  }

  lemma ClaimedTokens(s: State, s': State, key: TaskKey, token: Token, attempt: nat, k: TaskKey)
    requires token !in s.claims && s'.claims == s.claims[token := Claim(key, attempt)]
    ensures |ClaimsOf(s', k)| == |ClaimsOf(s, k)| + if k == key then 1 else 0
    ensures forall t :: t in s.claims ==> t in s'.claims && s'.claims[t] == s.claims[t]
  {
    if k == key {
      assert ClaimsOf(s', k) == ClaimsOf(s, k) + {token};
    } else {
      assert ClaimsOf(s', k) == ClaimsOf(s, k);
    }
  }

  lemma ClaimedTask(registry: Registry, s: State, key: TaskKey, token: Token, startedAt: Time, expires: Time,
                    k: TaskKey)
    requires key in s.table && Claimable(s.table[key], startedAt) && token !in s.claims
    requires k in s.table && TaskOk(registry, s, k)
    ensures TaskOk(registry, AfterClaim(s, key, token, startedAt, expires), k)
  {
    ClaimedTokens(s, AfterClaim(s, key, token, startedAt, expires), key, token, s.table[key].attempt, k);
    hide ClaimsOf;
  }

  lemma ClaimedCopy(s: State, key: TaskKey, token: Token, startedAt: Time, expires: Time, k: TaskKey, copy: Task)
    requires key in s.table && Claimable(s.table[key], startedAt) && token !in s.claims && CopyOk(s, k, copy)
    ensures CopyOk(AfterClaim(s, key, token, startedAt, expires), k, copy)
  {
  }

  lemma ClaimedClaim(registry: Registry, s: State, key: TaskKey, token: Token, startedAt: Time, expires: Time,
                     other: Token)
    requires key in s.table && Claimable(s.table[key], startedAt) && token !in s.claims
    requires other in s.claims && ClaimOk(s, other)
    ensures ClaimOk(AfterClaim(s, key, token, startedAt, expires), other)
    ensures s.claims[other] != Claim(key, s.table[key].attempt)
  {
  }

  lemma ClaimedNew(registry: Registry, s: State, key: TaskKey, token: Token, startedAt: Time, expires: Time)
    requires key in s.table && Claimable(s.table[key], startedAt) && token !in s.claims && token !in s.handled
    requires TaskOk(registry, s, key)
    ensures WorkerOk(AfterClaim(s, key, token, startedAt, expires), token)
    ensures ClaimOk(AfterClaim(s, key, token, startedAt, expires), token)
  {
  }

  lemma ClaimKeeps(registry: Registry, s: State, key: TaskKey, token: Token, startedAt: Time, expires: Time)
    requires Inv(registry, s) && Enabled(registry, s, ClaimTask(key, token, startedAt, expires))
    ensures Inv(registry, AfterClaim(s, key, token, startedAt, expires))
  {
    hide TaskOk, CopyOk, ClaimOk, Claimable;
    var s' := AfterClaim(s, key, token, startedAt, expires);
    ClaimedNew(registry, s, key, token, startedAt, expires);
    forall k | k in s'.table ensures TaskOk(registry, s', k) {
      ClaimedTask(registry, s, key, token, startedAt, expires, k);
    }
    forall t | t in s'.workers ensures WorkerOk(s', t) {
      if t != token {
        assert WorkerOk(s, t);
        ClaimedCopy(s, key, token, startedAt, expires, s.workers[t].key, s.workers[t].copy);
      }
    }
    forall pass | pass in s'.passes ensures CopyOk(s', s'.passes[pass].key, s'.passes[pass].copy) {
      ClaimedCopy(s, key, token, startedAt, expires, s.passes[pass].key, s.passes[pass].copy);
    }
    forall t | t in s.claims ensures ClaimOk(s', t) && s.claims[t] != Claim(key, s.table[key].attempt) {
      ClaimedClaim(registry, s, key, token, startedAt, expires, t);
    }
  }

  lemma StepKeeps(registry: Registry, s: State, a: Action)
    requires Inv(registry, s) && Enabled(registry, s, a)
    ensures Inv(registry, Apply(registry, s, a))
  {
    hide Inv, WorkerWrite, AfterRecovery, AfterClaim, Finish;
    match a
    case Create(key, task) => CreateKeeps(registry, s, key, task);
    case ClaimTask(key, token, startedAt, expires) => ClaimKeeps(registry, s, key, token, startedAt, expires);
    case RefuseClaimed(token, error, at) => WorkerWriteKeeps(registry, s, token, Fail(error), at);
    case CancelClaimed(token, at) => WorkerWriteKeeps(registry, s, token, CancelRunning, at);
    case EndHandler(token, ending, at, delay) =>
      FinishDecides(registry, s.workers[token].copy, ending, at, delay);
      var w := Finish(registry, s.workers[token].copy, ending, at, delay);
      if w.Some? {
        WorkerWriteKeeps(registry, s, token, w.value, at);
      } else {
        RestKeeps(registry, s, Apply(registry, s, a));
      }
    case Renew(token, at, expires) => RenewKeeps(registry, s, token, at, expires);
    case ListDead(pass, key, at) => ListKeeps(registry, s, pass, key, at);
    case RecoverDead(pass, delay) => RecoveryKeeps(registry, s, pass, delay);
    case CancelQueued(key) => CancelKeeps(registry, s, key);
    case Tick(time) => RestKeeps(registry, s, Apply(registry, s, a));
    case StartHandler(token) => RestKeeps(registry, s, Apply(registry, s, a));
    case Crash => RestKeeps(registry, s, Apply(registry, s, a));
  }

  lemma RenewEvolves(registry: Registry, s: State, key: TaskKey, token: Token, expires: Time)
    requires key in s.table && TaskOk(registry, s, key) && s.table[key].status == Running
    requires s.table[key].lease.Some? && s.table[key].lease.value.token == token
    ensures Evolves(registry, s.table[key], s.table[key].(lease := Some(Lease(token, expires))))
  {
  }

  lemma RenewKeeps(registry: Registry, s: State, token: Token, at: Time, expires: Time)
    requires Inv(registry, s) && token in s.workers
    ensures Inv(registry, AfterRenew(s, token, at, expires))
  {
    hide TaskOk, CopyOk, ClaimOk, Evolves, WorkerOk;
    var k := s.workers[token].key;
    if k in s.table && HoldsLease(s.table[k], token, at) {
      RenewEvolves(registry, s, k, token, expires);
      RowKeeps(registry, s, k, s.table[k].(lease := Some(Lease(token, expires))));
    }
  }

  lemma ListedCopy(registry: Registry, s: State, key: TaskKey)
    requires key in s.table && TaskOk(registry, s, key) && s.table[key].lease.Some?
    ensures CopyOk(s, key, s.table[key])
  {
  }

  lemma ListKeeps(registry: Registry, s: State, pass: nat, key: TaskKey, at: Time)
    requires Inv(registry, s) && Enabled(registry, s, ListDead(pass, key, at))
    ensures Inv(registry, s.(passes := s.passes[pass := Pass(key, s.table[key], at)]))
  {
    hide TaskOk, CopyOk, ClaimOk, WorkerOk;
    ListedCopy(registry, s, key);
    RestKeeps(registry, s, s.(passes := s.passes[pass := Pass(key, s.table[key], at)]));
  }

  lemma CancelKeeps(registry: Registry, s: State, key: TaskKey)
    requires Inv(registry, s) && key in s.table && Waiting(s.table[key])
    ensures Inv(registry,
            s.(table := s.table[key := s.table[key].(status := Cancelled, lease := None, error := CancelledError)]))
  {
    assert TaskOk(registry, s, key);
    RowKeeps(registry, s, key, s.table[key].(status := Cancelled, lease := None, error := CancelledError));
  }

  lemma {:induction false} InvAlong(registry: Registry, states: seq<State>, acts: seq<Action>, k: nat)
    requires Behaviour(registry, states, acts) && k < |states|
    ensures Inv(registry, states[k])
  {
    hide Apply, Enabled;
    if k > 0 {
      InvAlong(registry, states, acts, k - 1);
      StepAt(registry, states, acts, k - 1);
      StepKeeps(registry, states[k - 1], acts[k - 1]);
    }
  }

  lemma ReachableInv(registry: Registry, s: State)
    requires Reachable(registry, s)
    ensures Inv(registry, s)
  {
    hide Inv;
    var states, acts :| Behaviour(registry, states, acts) && states[|acts|] == s;
    InvAlong(registry, states, acts, |acts|);
  }

  // ---- the table as an object ----

  /** A row as ListDeadTasks returned it, with the backoff of its next attempt. */
  datatype Dead = Dead(key: TaskKey, copy: Task, delay: nat)

  datatype TaskError = InvalidTask | LeaseLost | InvalidTransition | TaskExists

  /** The checks on the arguments of a write that ends a claim; the copy is the caller's. */
  predicate Accepts(copy: Task, w: Write, at: Time) {
    copy.status == Running && copy.lease.Some? && WriteOk(copy, w, at)
  }

  /** A row after a write that ended its claim, field by field. */
  ghost predicate Concluded(t: Task, t': Task, w: Write) {
    && t'.kind == t.kind && t'.maxAttempts == t.maxAttempts && t'.deadline == t.deadline && t'.createdAt == t.createdAt
    && t'.lease.None?
    && match w
       case Succeed => t'.status == Succeeded && t'.error == NoError && SameSchedule(t, t')
       case Fail(e) => t'.status == Failed && t'.error == e && SameSchedule(t, t')
       case Retry(at) =>
         t'.status == RetryScheduled && t'.error == t.error && t'.attempt == t.attempt + 1 && t'.availableAt == at
       case CancelRunning => t'.status == Cancelled && t'.error == CancelledError && SameSchedule(t, t')
  }

  ghost predicate SameSchedule(t: Task, t': Task) {
    t'.attempt == t.attempt && t'.availableAt == t.availableAt
  }

  lemma AfterIs(t: Task, t': Task, w: Write)
    ensures Concluded(t, t', w) <==> t' == After(t, w)
  {
  }

  /** Exactly the one row has changed, by the write. */
  ghost predicate RowEnded(before: Table, after: Table, key: TaskKey, w: Write) {
    && key in before && after.Keys == before.Keys && Concluded(before[key], after[key], w)
    && forall k :: k in before && k != key ==> after[k] == before[k]
  }

  /** The arguments of a write that ends a claim are in order. */
  ghost predicate InOrder(copy: Task, w: Write, at: Time) {
    && copy.status == Running && copy.lease.Some?
    && (w.Retry? ==> at < w.availableAt && copy.attempt < copy.maxAttempts)
    && (w.Fail? ==> w.error != NoError)
  }

  /** The task runs under the lease of this token. */
  ghost predicate RunsUnder(rows: Table, key: TaskKey, token: Token) {
    key in rows && rows[key].status == Running && rows[key].lease.Some? && rows[key].lease.value.token == token
  }

  predicate IsRunning(rows: Table, key: TaskKey) {
    key in rows && rows[key].status == Running
  }

  /** What a recovery pass makes of the row of a task it has listed. */
  ghost function Recovered(registry: Registry, row: Task, d: Dead, now: Time): Task {
    var w := Recover(registry, d.copy, now, d.delay);
    if Accepts(d.copy, w, now) && LeaseDead(row, d.copy.lease.value.token, now) then After(row, w) else row
  }

  class TaskStore {
    var rows: Table

    /** A new task is queued, at its first attempt, and has its start before its deadline. */
    method CreateTask(key: TaskKey, task: Task) returns (error: Option<TaskError>)
      modifies this
      ensures error == Some(InvalidTask) <==>
                !(&& task.status == Queued && task.attempt == 1 && 1 <= task.maxAttempts <= 32
                  && task.createdAt < task.deadline && task.createdAt <= task.availableAt
                  && task.availableAt < task.deadline && task.lease.None? && task.error == NoError)
      ensures error == Some(TaskExists) ==> key in old(rows)
      ensures error.None? ==> key !in old(rows) && rows == old(rows)[key := task]
      ensures error.Some? ==> rows == old(rows) && (error.value == InvalidTask || error.value == TaskExists)
    {
      if !ValidNew(task) {
        return Some(InvalidTask);
      }
      if key in rows {
        return Some(TaskExists);
      }
      rows := rows[key := task];
      error := None;
    }

    /** A task that waits is cancelled; a running or ended one is left alone. */
    method CancelQueuedTask(key: TaskKey) returns (cancelled: Option<bool>)
      modifies this
      ensures cancelled.None? <==> key !in old(rows)
      ensures cancelled == Some(true) <==>
                key in old(rows) && (old(rows)[key].status == Queued || old(rows)[key].status == RetryScheduled)
      ensures if cancelled == Some(true) then RowEnded(old(rows), rows, key, CancelRunning) else rows == old(rows)
    {
      if key !in rows {
        return None;
      }
      if !Waiting(rows[key]) {
        return Some(false);
      }
      rows := rows[key := rows[key].(status := Cancelled, lease := None, error := CancelledError)];
      cancelled := Some(true);
    }

    method ClaimTask(key: TaskKey, token: Token, startedAt: Time, expires: Time)
      returns (claimed: Result<Task, TaskError>)
      modifies this
      ensures claimed == Err(InvalidTask) <==> expires <= startedAt
      ensures claimed.Ok? <==>
                && startedAt < expires && key in old(rows) && old(rows)[key].lease.None?
                && (old(rows)[key].status == Queued || old(rows)[key].status == RetryScheduled)
                && old(rows)[key].availableAt <= startedAt
      ensures claimed.Ok? ==>
                && claimed.value == old(rows)[key].(status := Running, lease := Some(Lease(token, expires)))
                && rows == old(rows)[key := claimed.value]
      ensures claimed.Err? ==> rows == old(rows) && claimed.error in {InvalidTask, InvalidTransition}
    {
      if startedAt >= expires {
        return Err(InvalidTask);
      }
      if key !in rows || !Claimable(rows[key], startedAt) {
        return Err(InvalidTransition);
      }
      rows := rows[key := rows[key].(status := Running, lease := Some(Lease(token, expires)))];
      claimed := Ok(rows[key]);
    }

    /** classifyLeaseFailure: the lease is lost while the task still runs, else the task has moved on. */
    method ClassifyLeaseFailure(key: TaskKey) returns (error: TaskError)
      ensures error == if IsRunning(rows, key) then LeaseLost else InvalidTransition
    {
      if key !in rows {
        return InvalidTransition;
      }
      error := if rows[key].status == Running then LeaseLost else InvalidTransition;
    }

    method RenewTaskLease(key: TaskKey, copy: Task, at: Time, expires: Time) returns (error: Option<TaskError>)
      modifies this
      ensures error == Some(InvalidTask) <==> !(copy.status == Running && copy.lease.Some? && at < expires)
      ensures error.None? <==>
                && copy.status == Running && copy.lease.Some? && at < expires
                && RunsUnder(old(rows), key, copy.lease.value.token) && at <= old(rows)[key].lease.value.expires
      ensures error == Some(LeaseLost) ==> IsRunning(rows, key)
      ensures error == Some(InvalidTransition) ==> !IsRunning(rows, key)
      ensures rows == if error.None?
                      then old(rows)[key := old(rows)[key].(lease := Some(Lease(copy.lease.value.token, expires)))]
                      else old(rows)
    {
      if copy.status != Running || copy.lease.None? || expires <= at {
        return Some(InvalidTask);
      }
      var token := copy.lease.value.token;
      if key !in rows || !HoldsLease(rows[key], token, at) {
        var reason := ClassifyLeaseFailure(key);
        return Some(reason);
      }
      rows := rows[key := rows[key].(lease := Some(Lease(token, expires)))];
      error := None;
    }

    /** CompleteTask, FailTask, RetryTask and CancelRunningTask differ only in the write. */
    method EndClaim(key: TaskKey, copy: Task, w: Write, at: Time) returns (error: Option<TaskError>)
      modifies this
      ensures error == Some(InvalidTask) <==> !InOrder(copy, w, at)
      ensures error.None? <==>
                && InOrder(copy, w, at) && RunsUnder(old(rows), key, copy.lease.value.token)
                && at <= old(rows)[key].lease.value.expires
      ensures error == Some(LeaseLost) ==> IsRunning(rows, key)
      ensures error == Some(InvalidTransition) ==> !IsRunning(rows, key)
      ensures if error.None? then RowEnded(old(rows), rows, key, w) else rows == old(rows)
    {
      if !Accepts(copy, w, at) {
        return Some(InvalidTask);
      }
      if key !in rows || !HoldsLease(rows[key], copy.lease.value.token, at) {
        var reason := ClassifyLeaseFailure(key);
        return Some(reason);
      }
      rows := rows[key := After(rows[key], w)];
      error := None;
    }

    /** FailDeadTask and RetryDeadTask: the guard is the lease's end having passed. */
    method EndDead(key: TaskKey, copy: Task, w: Write, at: Time) returns (error: Option<TaskError>)
      modifies this
      ensures error == Some(InvalidTask) <==> !InOrder(copy, w, at)
      ensures error.None? <==>
                && InOrder(copy, w, at) && RunsUnder(old(rows), key, copy.lease.value.token)
                && old(rows)[key].lease.value.expires < at
      ensures error == Some(LeaseLost) ==> IsRunning(rows, key)
      ensures error == Some(InvalidTransition) ==> !IsRunning(rows, key)
      ensures if error.None? then RowEnded(old(rows), rows, key, w) else rows == old(rows)
    {
      if !Accepts(copy, w, at) {
        return Some(InvalidTask);
      }
      if key !in rows || !LeaseDead(rows[key], copy.lease.value.token, at) {
        var reason := ClassifyLeaseFailure(key);
        return Some(reason);
      }
      rows := rows[key := After(rows[key], w)];
      error := None;
    }

    /**
     recoverDeadTasks over one listing of different tasks, whatever has happened to their rows since: a row
     changes exactly if it still has the listed lease and that lease is past its end, and then as
     decided on the listed copy; no other row changes.
     */
    method RecoverDeadTasks(registry: Registry, dead: seq<Dead>, now: Time)
      requires forall i, j :: 0 <= i < j < |dead| ==> dead[i].key != dead[j].key
      modifies this
      ensures rows.Keys == old(rows).Keys
      ensures forall i :: 0 <= i < |dead| && dead[i].key in rows ==>
                rows[dead[i].key] == Recovered(registry, old(rows)[dead[i].key], dead[i], now)
      ensures forall key ::
                key in rows && (forall i :: 0 <= i < |dead| ==> dead[i].key != key) ==> rows[key] == old(rows)[key]
    {
      hide Recover, After, Concluded;
      var n := 0;
      while n < |dead|
        invariant n <= |dead| && rows.Keys == old(rows).Keys
        invariant forall i :: 0 <= i < n && dead[i].key in rows ==>
                    rows[dead[i].key] == Recovered(registry, old(rows)[dead[i].key], dead[i], now)
        invariant forall i :: n <= i < |dead| && dead[i].key in rows ==> rows[dead[i].key] == old(rows)[dead[i].key]
        invariant forall key ::
                    key in rows && (forall i :: 0 <= i < n ==> dead[i].key != key) ==> rows[key] == old(rows)[key]
      {
        var d := dead[n];
        var w := Recover(registry, d.copy, now, d.delay);
        ghost var before := rows;
        var error := EndDead(d.key, d.copy, w, now);
        if d.key in rows {
          AfterIs(before[d.key], rows[d.key], w);
        }
        n := n + 1;
      }
    }
  }

  /**
   What is made of a task whose execution failed: it waits for its next attempt exactly if its type
   allows that, attempts remain and the next start lies before the deadline; otherwise it has failed.
   */
  ghost predicate RetriedOrFailed(registry: Registry, t: Task, t': Task, e: ErrorClass, now: Time, delay: nat) {
    if t.kind in registry && registry[t.kind] && t.attempt < t.maxAttempts && now + delay < t.deadline
    then Concluded(t, t', Retry(now + delay))
    else Concluded(t, t', Fail(e))
  }

  /** A row that is as listed is recovered: past its deadline it fails, else its lost lease counts as a failure. */
  lemma DeadIsRecovered(registry: Registry, d: Dead, now: Time)
    requires d.delay > 0 && d.copy.lease.Some? && LeaseDead(d.copy, d.copy.lease.value.token, now)
    ensures var t := Recovered(registry, d.copy, d, now);
      if d.copy.deadline <= now then Concluded(d.copy, t, Fail(DeadlineError))
      else RetriedOrFailed(registry, d.copy, t, LeaseLostError, now, d.delay)
  {
  }
}
