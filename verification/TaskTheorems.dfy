/** What holds of background tasks over every run. */
module TaskTheorems {
  import opened TaskLifecycle

  /** In every reachable state attempts stay within the limit and the next start lies before the deadline. */
  lemma AttemptAndDeadlineBounds(registry: Registry, s: State, key: TaskKey)
    requires Reachable(registry, s) && key in s.table
    ensures 1 <= s.table[key].attempt <= s.table[key].maxAttempts <= ATTEMPT_LIMIT
    ensures s.table[key].availableAt < s.table[key].deadline
    ensures s.table[key].lease.Some? <==> s.table[key].status == Running
  {
    ReachableInv(registry, s);
    assert TaskOk(registry, s, key);
  }

  ghost function HandlersOf(s: State, key: TaskKey): set<Token> {
    set token | token in s.handled && token in s.claims && s.claims[token].key == key
  }

  /**
   A task is claimed at most maxAttempts times and its handler begins at most once per claim; if its
   type does not allow retries the handler begins at most once in the task's whole life.
   */
  lemma ClaimsAndHandlersBounded(registry: Registry, s: State, key: TaskKey)
    requires Reachable(registry, s) && key in s.table
    ensures |ClaimsOf(s, key)| <= s.table[key].attempt <= s.table[key].maxAttempts
    ensures |HandlersOf(s, key)| <= |ClaimsOf(s, key)|
    ensures s.table[key].kind in registry && !registry[s.table[key].kind] ==> |HandlersOf(s, key)| <= 1
  {
    ReachableInv(registry, s);
    assert TaskOk(registry, s, key);
    Subset(HandlersOf(s, key), ClaimsOf(s, key));
  }

  lemma {:induction false} Subset<T>(a: set<T>, b: set<T>)
    requires a <= b
    ensures |a| <= |b|
  {
    if a != {} {
      var x :| x in a;
      Subset(a - {x}, b - {x});
    }
  }

  /** Two handler runs of one task belong to different attempts. */
  lemma OneHandlerPerAttempt(registry: Registry, s: State, a: Token, b: Token)
    requires Reachable(registry, s) && a in s.handled && b in s.handled && a != b
    ensures a in s.claims && b in s.claims
    ensures s.claims[a].key == s.claims[b].key ==> s.claims[a].attempt != s.claims[b].attempt
  {
    ReachableInv(registry, s);
  }

  /** The row before and after a step. */
  ghost predicate RowStep(s: State, s': State, key: TaskKey) {
    key in s.table ==> key in s'.table && (Terminal(s.table[key]) ==> s'.table[key] == s.table[key])
  }

  lemma TerminalStays(registry: Registry, s: State, a: Action, key: TaskKey)
    requires Enabled(registry, s, a)
    ensures RowStep(s, Apply(registry, s, a), key)
  {
    hide Finish, Recover;
  }

  /** Terminal states absorb: once a task is terminal its row never changes again. */
  lemma {:induction false} TerminalAbsorbs(registry: Registry, states: seq<State>, acts: seq<Action>, i: nat, j: nat,
                                           key: TaskKey)
    requires Behaviour(registry, states, acts) && i <= j < |states|
    requires key in states[i].table && Terminal(states[i].table[key])
    ensures key in states[j].table && states[j].table[key] == states[i].table[key]
    decreases j
  {
    hide Apply, Enabled;
    if i < j {
      TerminalAbsorbs(registry, states, acts, i, j - 1, key);
      StepAt(registry, states, acts, j - 1);
      TerminalStays(registry, states[j - 1], acts[j - 1], key);
    }
  }

  /** A token that was drawn and does not hold the task does not get it back. */
  lemma GoneStays(registry: Registry, s: State, a: Action, key: TaskKey, token: Token)
    requires Enabled(registry, s, a) && token in s.claims && !RunsUnder(s.table, key, token)
    ensures !RunsUnder(Apply(registry, s, a).table, key, token)
  {
    hide Finish, Recover;
  }

  lemma {:induction false} NeverHeldAgain(registry: Registry, states: seq<State>, acts: seq<Action>, i: nat, j: nat,
                                          key: TaskKey, token: Token)
    requires Behaviour(registry, states, acts) && i <= j < |states|
    requires token in states[i].claims && !RunsUnder(states[i].table, key, token)
    ensures token in states[j].claims && !RunsUnder(states[j].table, key, token)
    decreases j
  {
    hide Apply, Enabled, RunsUnder;
    if i < j {
      NeverHeldAgain(registry, states, acts, i, j - 1, key, token);
      StepAt(registry, states, acts, j - 1);
      GoneStays(registry, states[j - 1], acts[j - 1], key, token);
      ClaimsStay(registry, states[j - 1], acts[j - 1], token);
    }
  }

  /**
   A claim ends at most once: of all the writes of its worker and of any recovery passes, one at most
   takes the task out of the claim's hands, and nothing gives it back.
   */
  lemma OneEndPerClaim(registry: Registry, states: seq<State>, acts: seq<Action>, i: nat, j: nat, key: TaskKey,
                       token: Token)
    requires Behaviour(registry, states, acts) && i < j < |states|
    requires RunsUnder(states[i].table, key, token) && !RunsUnder(states[i + 1].table, key, token)
    ensures !RunsUnder(states[j].table, key, token)
  {
    hide Apply, Enabled, RunsUnder, Inv;
    InvAlong(registry, states, acts, i);
    HolderClaimed(registry, states[i], key, token);
    StepAt(registry, states, acts, i);
    ClaimsStay(registry, states[i], acts[i], token);
    NeverHeldAgain(registry, states, acts, i + 1, j, key, token);
  }

  lemma HolderClaimed(registry: Registry, s: State, key: TaskKey, token: Token)
    requires Inv(registry, s) && RunsUnder(s.table, key, token)
    ensures token in s.claims
  {
    assert TaskOk(registry, s, key);
  }

  lemma ClaimsStay(registry: Registry, s: State, a: Action, token: Token)
    requires Enabled(registry, s, a) && token in s.claims
    ensures token in Apply(registry, s, a).claims
  {
    hide Finish, Recover;
  }

  // ---- what becomes of an execution ----

  /** What the end of an execution makes of the row that still has its lease, by the cause. */
  ghost predicate EndedBy(registry: Registry, t: Task, t': Task, ending: Ending, at: Time, delay: nat) {
    match ending.context
    case DeadlineExceeded => Concluded(t, t', Fail(DeadlineError))
    case ContextCancelled =>
      if ending.requested then Concluded(t, t', CancelRunning)
      else if ending.renewalFailed then RetriedOrFailed(registry, t, t', LeaseLostError, at, delay)
      else t' == t
    case Live =>
      match ending.result
      case HandlerOk => Concluded(t, t', Succeed)
      case TimedOut => Concluded(t, t', Fail(DeadlineError))
      case RetryableFailure => RetriedOrFailed(registry, t, t', Retryable, at, delay)
      case OtherFailure => Concluded(t, t', Fail(NonRetryable))
  }

  /** A copy and the row agree in all that decides what becomes of the task. */
  ghost predicate Agree(copy: Task, t: Task) {
    copy.kind == t.kind && copy.maxAttempts == t.maxAttempts && copy.deadline == t.deadline && copy.attempt == t.attempt
  }

  lemma FinishIs(registry: Registry, copy: Task, t: Task, ending: Ending, at: Time, delay: nat)
    requires Agree(copy, t) && delay > 0
    ensures var w := Finish(registry, copy, ending, at, delay);
      if w.Some? then WriteOk(copy, w.value, at) && EndedBy(registry, t, After(t, w.value), ending, at, delay)
      else EndedBy(registry, t, t, ending, at, delay)
  {
  }

  lemma RecoverIs(registry: Registry, copy: Task, t: Task, at: Time, delay: nat)
    requires Agree(copy, t) && delay > 0
    ensures var w := Recover(registry, copy, at, delay);
      && WriteOk(copy, w, at)
      && if t.deadline <= at then Concluded(t, After(t, w), Fail(DeadlineError))
         else RetriedOrFailed(registry, t, After(t, w), LeaseLostError, at, delay)
  {
  }

  /** A worker's write changes exactly the row that is still under its unexpired lease. */
  lemma WriteLands(s: State, token: Token, w: Write, at: Time)
    requires token in s.workers && s.workers[token].key in s.table && WriteOk(s.workers[token].copy, w, at)
    ensures var key, table := s.workers[token].key, WorkerWrite(s, token, w, at).table;
      table == if RunsUnder(s.table, key, token) && at <= s.table[key].lease.value.expires
               then s.table[key := After(s.table[key], w)] else s.table
  {
  }

  lemma HolderAgrees(registry: Registry, s: State, key: TaskKey, copy: Task, token: Token)
    requires CopyOk(s, key, copy) && copy.lease.value.token == token && RunsUnder(s.table, key, token)
    ensures Agree(copy, s.table[key])
  {
  }

  lemma WorkerKey(registry: Registry, s: State, token: Token)
    requires Inv(registry, s) && token in s.workers
    ensures CopyOk(s, s.workers[token].key, s.workers[token].copy) && s.workers[token].copy.lease.value.token == token
  {
    assert WorkerOk(s, token);
  }

  /** Every row but one is as it was. */
  ghost predicate OnlyRow(before: Table, after: Table, key: TaskKey) {
    key in before && after.Keys == before.Keys && forall k :: k in before && k != key ==> after[k] == before[k]
  }

  lemma RowOf(before: Table, after: Table, key: TaskKey, t': Task, lands: bool)
    requires key in before && after == if lands then before[key := t'] else before
    ensures OnlyRow(before, after, key) && after[key] == if lands then t' else before[key]
  {
  }

  /**
   How an execution ends: exactly if its row still has its unexpired lease, the row becomes what the
   cause asks for; otherwise the table stays as it is. No other row changes.
   */
  lemma ExecutionEnds(registry: Registry, s: State, token: Token, ending: Ending, at: Time, delay: nat, s': State)
    requires Inv(registry, s) && Step(registry, s, EndHandler(token, ending, at, delay), s') && delay > 0
    ensures var key := s.workers[token].key;
      && OnlyRow(s.table, s'.table, key)
      && if RunsUnder(s.table, key, token) && at <= s.table[key].lease.value.expires
         then EndedBy(registry, s.table[key], s'.table[key], ending, at, delay)
         else s'.table[key] == s.table[key]
  {
    StepTables(registry, s, EndHandler(token, ending, at, delay), s');
    hide Apply;
    WorkerKey(registry, s, token);
    var key, copy := s.workers[token].key, s.workers[token].copy;
    hide Inv, Finish, After, WorkerWrite, EndedBy, WriteOk, OnlyRow, CopyOk;
    var w := Finish(registry, copy, ending, at, delay);
    if RunsUnder(s.table, key, token) {
      HolderAgrees(registry, s, key, copy, token);
      FinishIs(registry, copy, s.table[key], ending, at, delay);
    }
    if w.Some? {
      FinishAccepted(registry, copy, ending, at, delay);
      WriteLands(s, token, w.value, at);
      RowOf(s.table, s'.table, key, After(s.table[key], w.value),
            RunsUnder(s.table, key, token) && at <= s.table[key].lease.value.expires);
    } else {
      RowOf(s.table, s'.table, key, s.table[key], false);
    }
  }

  lemma FinishAccepted(registry: Registry, copy: Task, ending: Ending, at: Time, delay: nat)
    requires delay > 0 && Finish(registry, copy, ending, at, delay).Some?
    ensures WriteOk(copy, Finish(registry, copy, ending, at, delay).value, at)
  {
    FinishIs(registry, copy, copy, ending, at, delay);
  }

  lemma StepTables(registry: Registry, s: State, a: Action, s': State)
    requires Step(registry, s, a, s')
    ensures match a
      case EndHandler(token, ending, at, delay) =>
        var w := Finish(registry, s.workers[token].copy, ending, at, delay);
        s'.table == if w.Some? then WorkerWrite(s, token, w.value, at).table else s.table
      case RefuseClaimed(token, e, at) => s'.table == WorkerWrite(s, token, Fail(e), at).table
      case CancelClaimed(token, at) => s'.table == WorkerWrite(s, token, CancelRunning, at).table
      case RecoverDead(pass, delay) => s'.table == AfterRecovery(registry, s, pass, delay).table
      case _ => true
  {
    hide WorkerWrite, AfterRecovery, Finish, AfterClaim, AfterRenew;
  }

  /** A claim that is refused before its handler begins has failed, and one that was cancelled is cancelled. */
  lemma ClaimRefused(registry: Registry, s: State, a: Action, s': State)
    requires Inv(registry, s) && Step(registry, s, a, s') && (a.RefuseClaimed? || a.CancelClaimed?)
    requires a.RefuseClaimed? ==> a.error != NoError
    ensures var key := s.workers[a.token].key;
      && key in s.table
      && if RunsUnder(s.table, key, a.token) && a.at <= s.table[key].lease.value.expires
         then RowEnded(s.table, s'.table, key, if a.RefuseClaimed? then Fail(a.error) else CancelRunning)
         else s'.table == s.table
  {
    WorkerKey(registry, s, a.token);
    StepTables(registry, s, a, s');
    hide Apply, Inv;
    hide Enabled, WorkerWrite, After, Concluded, CopyOk, OnlyRow;
    var key := s.workers[a.token].key;
    var t, w := s.table[key], if a.RefuseClaimed? then Fail(a.error) else CancelRunning;
    WriteLands(s, a.token, w, a.at);
    AfterIs(t, After(t, w), w);
    RowOf(s.table, s'.table, key, After(t, w), RunsUnder(s.table, key, a.token) && a.at <= t.lease.value.expires);
  }

  lemma RecoveryLands(registry: Registry, s: State, pass: nat, delay: nat, w: Write)
    requires pass in s.passes && w == Recover(registry, s.passes[pass].copy, s.passes[pass].at, delay)
    requires var p := s.passes[pass]; p.key in s.table && p.copy.lease.Some? && WriteOk(p.copy, w, p.at)
    ensures var p, table := s.passes[pass], AfterRecovery(registry, s, pass, delay).table;
      table == if RunsUnder(s.table, p.key, p.copy.lease.value.token) && s.table[p.key].lease.value.expires < p.at
               then s.table[p.key := After(s.table[p.key], w)] else s.table
  {
    hide Recover, After, WriteOk;
  }

  /** A recovery pass changes exactly the row that still has the listed lease past its end. */
  lemma DeadEnds(registry: Registry, s: State, pass: nat, delay: nat, s': State)
    requires Inv(registry, s) && Step(registry, s, RecoverDead(pass, delay), s') && delay > 0
    ensures var p := s.passes[pass];
      && OnlyRow(s.table, s'.table, p.key) && p.copy.lease.Some?
      && var t, t' := s.table[p.key], s'.table[p.key];
         if RunsUnder(s.table, p.key, p.copy.lease.value.token) && t.lease.value.expires < p.at
         then if t.deadline <= p.at then Concluded(t, t', Fail(DeadlineError))
              else RetriedOrFailed(registry, t, t', LeaseLostError, p.at, delay)
         else t' == t
  {
    StepTables(registry, s, RecoverDead(pass, delay), s');
    hide Apply;
    var p := s.passes[pass];
    assert CopyOk(s, p.key, p.copy);
    hide Inv, Recover, After, RetriedOrFailed, Concluded, WriteOk, AfterRecovery, OnlyRow;
    var token, t := p.copy.lease.value.token, s.table[p.key];
    RecoverIs(registry, p.copy, p.copy, p.at, delay);
    RecoveryLands(registry, s, pass, delay, Recover(registry, p.copy, p.at, delay));
    RowOf(s.table, s'.table, p.key, After(t, Recover(registry, p.copy, p.at, delay)),
          RunsUnder(s.table, p.key, token) && t.lease.value.expires < p.at);
    if RunsUnder(s.table, p.key, token) {
      HolderAgrees(registry, s, p.key, p.copy, token);
      RecoverIs(registry, p.copy, s.table[p.key], p.at, delay);
    }
  }

  // ---- what can always happen ----

  /** The actions can be taken one after the other, and lead from the one state to the other. */
  ghost predicate Leads(registry: Registry, s: State, acts: seq<Action>, end: State)
    decreases |acts|
  {
    if acts == [] then s == end
    else Enabled(registry, s, acts[0]) && Leads(registry, Apply(registry, s, acts[0]), acts[1..], end)
  }

  lemma LeadsFirst(registry: Registry, s: State, acts: seq<Action>, next: State, end: State)
    requires acts != [] && Step(registry, s, acts[0], next) && Leads(registry, next, acts[1..], end)
    ensures Leads(registry, s, acts, end)
  {
  }

  /** A task is claimed with a new token, its handler runs, and it returns without an error. */
  function Life(key: TaskKey, token: Token, start: Time): seq<Action> {
    [ClaimTask(key, token, start, start + 1), StartHandler(token),
     EndHandler(token, Ending(Live, false, false, HandlerOk), start, 1)]
  }

  lemma CanBegin(registry: Registry, s: State, key: TaskKey, token: Token) returns (claimed: State, begun: State)
    requires Inv(registry, s) && key in s.table && Waiting(s.table[key]) && token !in s.claims
    requires s.table[key].availableAt <= s.now < s.table[key].deadline
    ensures Step(registry, s, ClaimTask(key, token, s.now, s.now + 1), claimed)
    ensures Step(registry, claimed, StartHandler(token), begun) && begun.now == s.now
    ensures begun == claimed.(workers := begun.workers, handled := claimed.handled + {token})
    ensures token in begun.workers && begun.workers[token].stage == InHandler && begun.workers[token].key == key
    ensures begun.workers[token].copy == begun.table[key] && RunsUnder(begun.table, key, token)
    ensures begun.table[key].lease.value.expires == s.now + 1 && OnlyRow(s.table, begun.table, key)
  {
    assert TaskOk(registry, s, key);
    hide Inv, TaskOk;
    claimed := AfterClaim(s, key, token, s.now, s.now + 1);
    begun := claimed.(workers := claimed.workers[token := claimed.workers[token].(stage := InHandler)],
                      handled := claimed.handled + {token});
  }

  lemma CanEnd(registry: Registry, s: State, key: TaskKey, token: Token) returns (ended: State)
    requires token in s.workers && s.workers[token].stage == InHandler && s.workers[token].key == key
    requires RunsUnder(s.table, key, token) && s.now <= s.table[key].lease.value.expires
    ensures Step(registry, s, EndHandler(token, Ending(Live, false, false, HandlerOk), s.now, 1), ended)
    ensures RowEnded(s.table, ended.table, key, Succeed) && ended.handled == s.handled
  {
    ended := WorkerWrite(s, token, Succeed, s.now);
    WriteLands(s, token, Succeed, s.now);
    AfterIs(s.table[key], After(s.table[key], Succeed), Succeed);
  }

  /** Every task that waits and is due before its deadline can be claimed, run once and end successfully. */
  lemma CanSucceed(registry: Registry, s: State, key: TaskKey, token: Token) returns (ended: State)
    requires Inv(registry, s) && key in s.table && Waiting(s.table[key]) && token !in s.claims
    requires s.table[key].availableAt <= s.now < s.table[key].deadline
    ensures Leads(registry, s, Life(key, token, s.now), ended) && token in ended.handled
    ensures OnlyRow(s.table, ended.table, key) && ended.table[key].status == Succeeded && ended.table[key].lease.None?
  {
    hide Apply, Enabled, Inv;
    var acts := Life(key, token, s.now);
    var claimed, begun := CanBegin(registry, s, key, token);
    ended := CanEnd(registry, begun, key, token);
    LeadsNothing(registry, ended);
    LeadsFirst(registry, begun, [acts[2]], ended, ended);
    LeadsFirst(registry, claimed, [acts[1], acts[2]], begun, ended);
    LeadsFirst(registry, s, acts, claimed, ended);
  }

  lemma LeadsNothing(registry: Registry, s: State)
    ensures Leads(registry, s, [], s)
  {
  }

  lemma CanRecoverListed(registry: Registry, s: State, key: TaskKey) returns (listed: State, end: State)
    requires key in s.table && s.table[key].status == Running && s.table[key].lease.Some? && s.passes == map[]
    requires s.table[key].lease.value.expires < s.now
    ensures Step(registry, s, ListDead(0, key, s.now), listed) && Step(registry, listed, RecoverDead(0, 1), end)
    ensures OnlyRow(s.table, end.table, key) && end.passes == map[] && end.workers == s.workers
    ensures end.table[key].status == Failed || end.table[key].status == RetryScheduled
  {
    listed := s.(passes := map[0 := Pass(key, s.table[key], s.now)]);
    end := AfterRecovery(registry, listed, 0, 1);
    var w := Recover(registry, s.table[key], s.now, 1);
    RecoverIs(registry, s.table[key], s.table[key], s.now, 1);
    RecoveryLands(registry, listed, 0, 1, w);
    hide Recover, RetriedOrFailed;
    RowOf(s.table, end.table, key, After(s.table[key], w), true);
    RecoverEnds(registry, s.table[key], s.now);
  }

  lemma RecoverEnds(registry: Registry, t: Task, now: Time)
    ensures var t' := After(t, Recover(registry, t, now, 1)); t'.status == Failed || t'.status == RetryScheduled
  {
  }

  /** Every running task, also after a crash of all workers, can be recovered once its lease has ended. */
  lemma CanRecover(registry: Registry, s: State, key: TaskKey, later: Time) returns (end: State)
    requires key in s.table && s.table[key].status == Running && s.table[key].lease.Some?
    requires s.now <= later && s.table[key].lease.value.expires < later
    ensures Leads(registry, s, [Crash, Tick(later), ListDead(0, key, later), RecoverDead(0, 1)], end)
    ensures end.workers == map[] && end.passes == map[] && OnlyRow(s.table, end.table, key)
    ensures end.table[key].status == Failed || end.table[key].status == RetryScheduled
  {
    var acts := [Crash, Tick(later), ListDead(0, key, later), RecoverDead(0, 1)];
    var crashed := s.(workers := map[], passes := map[]);
    var late := crashed.(now := later);
    assert Step(registry, s, acts[0], crashed) && Step(registry, crashed, acts[1], late);
    hide Apply, Enabled;
    var listed;
    listed, end := CanRecoverListed(registry, late, key);
    LeadsNothing(registry, end);
    LeadsFirst(registry, listed, [acts[3]], end, end);
    LeadsFirst(registry, late, [acts[2], acts[3]], listed, end);
    LeadsFirst(registry, crashed, [acts[1], acts[2], acts[3]], late, end);
    LeadsFirst(registry, s, acts, crashed, end);
  }
}
