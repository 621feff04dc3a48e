/**
 Idempotent execution: any number of callers, on any keys, over a table that inserts a record only
 when there is none and completes it only for the caller whose lease it carries. Every statement on
 the table is one step, so callers interleave at every statement.
 */
module Idempotency {
  import opened Common

  const MAX_RESULT_BYTES: nat := 256 * 1024

  type Bytes = seq<bv8>
  type Time = int

  /** The app, scope and key together: the table's primary key. */
  datatype Slot = Slot(app: string, scope: string, key: string)

  datatype Operation = Operation(slot: Slot, fingerprint: string, owner: string)

  /** The lease token of a claim is the call's own number: every call draws a fresh one. */
  datatype Claim = Claim(op: Operation, token: nat, expires: Time)

  datatype Status = Executing | Succeeded | Failed

  datatype Record = Record(fingerprint: string, owner: string, status: Status, token: nat, expires: Time, result: Bytes)

  type Table = map<Slot, Record>

  // ---- the table's statements ----

  /** BeginIdempotent's insert: nothing happens when the key is taken. */
  function InsertIfAbsent(t: Table, c: Claim): Table {
    if c.op.slot in t then t
    else t[c.op.slot := Record(c.op.fingerprint, c.op.owner, Executing, c.token, c.expires, [])]
  }

  /** The guard of CompleteIdempotent's update. */
  predicate Holds(t: Table, c: Claim, now: Time) {
    && c.op.slot in t
    && var r := t[c.op.slot];
       r.fingerprint == c.op.fingerprint && r.owner == c.op.owner && r.status == Executing && r.token == c.token
       && now <= r.expires
  }

  function CompleteRow(t: Table, c: Claim, status: Status, result: Bytes, now: Time): Table {
    if Holds(t, c, now) then
      t[c.op.slot := t[c.op.slot].(status := status, result := if status == Succeeded then result else [])]
    else t
  }

  // ---- what a call makes of what it sees ----

  datatype Outcome = Success(bytes: Bytes, replayed: bool) | CallbackFailed | PreviousFailure | OutcomeUnknown
                   | KeyConflict | LeaseLost | GaveUp | StoreError | InvalidRequest

  /** What the callback returned; None is an error. */
  type CallbackResult = Option<Bytes>

  predicate Storable(r: CallbackResult) {
    r.Some? && |r.value| <= MAX_RESULT_BYTES
  }

  /** replayOrWait's verdict on a record, or None to keep waiting. */
  function Judge(r: Record, now: Time): Option<Outcome> {
    match r.status
    case Succeeded => Some(Success(r.result, true))
    case Failed => Some(PreviousFailure)
    case Executing => if now >= r.expires then Some(OutcomeUnknown) else None
  }

  // ---- the state machine ----

  datatype Pc =
    | Inserted(claim: Claim, claimed: bool)
    | Running(claim: Claim)
    | InCallback(claim: Claim)
    | Returned(claim: Claim, result: CallbackResult, completedAt: Time)
    | Waiting(record: Record)
    | Done(outcome: Outcome)

  datatype Caller = Caller(op: Operation, pc: Pc)

  /** `starts` are the callback runs in the order they began, `results` what those that ended returned. */
  datatype State = State(now: Time, table: Table, callers: map<nat, Caller>, starts: seq<nat>,
                         results: map<nat, CallbackResult>)

  /**
   The clock is read before a statement that uses it: `at` is what a call read before its insert, and
   `completedAt` what it read after its callback. A failed statement may have been applied all the same;
   an empty result that the table refuses is a completion that fails and is not applied.
   */
  datatype Action =
    | Tick(time: Time)
    | Begin(c: nat, op: Operation, at: Time, expires: Time)
    | BeginFails(c: nat, op: Operation, at: Time, expires: Time, inserted: bool)
    | ReadBack(c: nat)
    | ReadFails(c: nat)
    | StartCallback(c: nat)
    | EndCallback(c: nat, result: CallbackResult)
    | Complete(c: nat)
    | CompleteFails(c: nat, applied: bool)
    | Look(c: nat)
    | Reread(c: nat)
    | GiveUp(c: nat)

  const INIT := State(0, map[], map[], [], map[])

  function PcOf(s: State, c: nat): Pc
    requires c in s.callers
  {
    s.callers[c].pc
  }

  predicate Enabled(s: State, a: Action) {
    match a
    case Tick(time) => s.now <= time
    case Begin(c, op, at, expires) => c !in s.callers && at <= s.now && at < expires
    case BeginFails(c, op, at, expires, inserted) => c !in s.callers && at <= s.now && at < expires
    case ReadBack(c) => c in s.callers && PcOf(s, c).Inserted? && s.callers[c].op.slot in s.table
    case ReadFails(c) => c in s.callers && (PcOf(s, c).Inserted? || PcOf(s, c).Waiting?)
    case StartCallback(c) => c in s.callers && PcOf(s, c).Running?
    case EndCallback(c, result) => c in s.callers && PcOf(s, c).InCallback?
    case Complete(c) => c in s.callers && PcOf(s, c).Returned?
    case CompleteFails(c, applied) => c in s.callers && PcOf(s, c).Returned?
    case Look(c) => c in s.callers && PcOf(s, c).Waiting? && Judge(PcOf(s, c).record, s.now).Some?
    case Reread(c) => c in s.callers && PcOf(s, c).Waiting? && s.callers[c].op.slot in s.table
    case GiveUp(c) => c in s.callers && PcOf(s, c).Waiting?
  }

  function Goto(s: State, c: nat, pc: Pc): State
    requires c in s.callers
  {
    s.(callers := s.callers[c := s.callers[c].(pc := pc)])
  }

  /** The table after the completing update of a call whose callback has returned. */
  function Completed(s: State, claim: Claim, result: CallbackResult, completedAt: Time): Table {
    if Storable(result) then CompleteRow(s.table, claim, Succeeded, result.value, completedAt)
    else CompleteRow(s.table, claim, Failed, [], completedAt)
  }

  function Apply(s: State, a: Action): State
    requires Enabled(s, a)
  {
    match a
    case Tick(time) => s.(now := time)
    case Begin(c, op, at, expires) =>
      var claim := Claim(op, c, expires);
      s.(table := InsertIfAbsent(s.table, claim),
         callers := s.callers[c := Caller(op, Inserted(claim, op.slot !in s.table))])
    case BeginFails(c, op, at, expires, inserted) =>
      s.(table := if inserted then InsertIfAbsent(s.table, Claim(op, c, expires)) else s.table,
         callers := s.callers[c := Caller(op, Done(StoreError))])
    case ReadBack(c) =>
      var r := s.table[s.callers[c].op.slot];
      Goto(s, c, if r.fingerprint != s.callers[c].op.fingerprint then Done(KeyConflict)
                 else if PcOf(s, c).claimed then Running(PcOf(s, c).claim)
                 else Waiting(r))
    case ReadFails(c) => Goto(s, c, Done(StoreError))
    case StartCallback(c) => Goto(s, c, InCallback(PcOf(s, c).claim)).(starts := s.starts + [c])
    case EndCallback(c, result) =>
      Goto(s, c, Returned(PcOf(s, c).claim, result, s.now)).(results := s.results[c := result])
    case Complete(c) =>
      var Returned(claim, result, completedAt) := PcOf(s, c);
      Goto(s, c, Done(if !Holds(s.table, claim, completedAt) then LeaseLost
                      else if Storable(result) then Success(result.value, false)
                      else CallbackFailed)).(table := Completed(s, claim, result, completedAt))
    case CompleteFails(c, applied) =>
      var Returned(claim, result, completedAt) := PcOf(s, c);
      Goto(s, c, Done(StoreError)).(table := if applied then Completed(s, claim, result, completedAt) else s.table)
    case Look(c) => Goto(s, c, Done(Judge(PcOf(s, c).record, s.now).value))
    case Reread(c) =>
      var r := s.table[s.callers[c].op.slot];
      Goto(s, c, if r.fingerprint != s.callers[c].op.fingerprint then Done(KeyConflict) else Waiting(r))
    case GiveUp(c) => Goto(s, c, Done(GaveUp))
  }

  ghost predicate Step(s: State, a: Action, s': State) {
    Enabled(s, a) && s' == Apply(s, a)
  }

  ghost predicate Behaviour(states: seq<State>, acts: seq<Action>) {
    && |states| == |acts| + 1 && states[0] == INIT
    && forall i {:trigger Step(states[i], acts[i], states[i + 1])} :: 0 <= i < |acts| ==>
         Step(states[i], acts[i], states[i + 1])
  }

  lemma StepAt(states: seq<State>, acts: seq<Action>, i: nat)
    requires Behaviour(states, acts) && i < |acts|
    ensures Step(states[i], acts[i], states[i + 1])
  {
  }

  ghost predicate Reachable(s: State) {
    exists states, acts :: Behaviour(states, acts) && states[|acts|] == s
  }

  // ---- the invariant ----

  /** The call that inserted the record and may still complete it. */
  ghost predicate Owns(s: State, c: nat) {
    && c in s.callers && s.callers[c].op.slot in s.table
    && var r := s.table[s.callers[c].op.slot];
       r.token == c && r.fingerprint == s.callers[c].op.fingerprint && r.owner == s.callers[c].op.owner
  }

  ghost predicate ClaimOk(s: State, c: nat, claim: Claim)
    requires c in s.callers
  {
    claim.op == s.callers[c].op && claim.token == c
  }

  /** The same record, at the same or an earlier stage. */
  ghost predicate Earlier(seen: Record, now: Record) {
    && seen.fingerprint == now.fingerprint && seen.owner == now.owner && seen.token == now.token
       && seen.expires == now.expires
    && (seen.status != Executing ==> seen == now)
  }

  ghost predicate CallerOk(s: State, c: nat)
    requires c in s.callers
  {
    var op := s.callers[c].op;
    match s.callers[c].pc
    case Inserted(claim, claimed) =>
      op.slot in s.table && ClaimOk(s, c, claim) && c !in s.starts
        && (claimed ==> Owns(s, c) && s.table[op.slot].status == Executing)
    case Running(claim) => Owns(s, c) && ClaimOk(s, c, claim) && c !in s.starts && s.table[op.slot].status == Executing
    case InCallback(claim) =>
      Owns(s, c) && ClaimOk(s, c, claim) && c in s.starts && c !in s.results && s.table[op.slot].status == Executing
    case Returned(claim, result, _) =>
      Owns(s, c) && ClaimOk(s, c, claim) && c in s.starts && c in s.results && s.results[c] == result
      && s.table[op.slot].status == Executing
    case Waiting(r) => op.slot in s.table && r.fingerprint == op.fingerprint && Earlier(r, s.table[op.slot])
    case Done(outcome) =>
      match outcome
      case Success(bytes, replayed) =>
        && op.slot in s.table && s.table[op.slot].fingerprint == op.fingerprint
        && s.table[op.slot].status == Succeeded && s.table[op.slot].result == bytes
        && (!replayed ==> Owns(s, c))
      case PreviousFailure =>
        op.slot in s.table && s.table[op.slot].fingerprint == op.fingerprint && s.table[op.slot].status == Failed
      case OutcomeUnknown =>
        op.slot in s.table && s.table[op.slot].fingerprint == op.fingerprint && s.table[op.slot].expires <= s.now
      case KeyConflict => op.slot in s.table && s.table[op.slot].fingerprint != op.fingerprint
      case _ => true
  }

  ghost predicate RecordOk(s: State, slot: Slot)
    requires slot in s.table
  {
    var r := s.table[slot];
    && r.token in s.callers && s.callers[r.token].op.slot == slot
    && (r.status == Succeeded ==>
          r.token in s.results && s.results[r.token] == Some(r.result) && Storable(Some(r.result)))
    && (r.status == Failed ==> r.token in s.results && !Storable(s.results[r.token]))
  }

  ghost predicate Inv(s: State) {
    && (forall c :: c in s.callers ==> CallerOk(s, c))
    && (forall slot :: slot in s.table ==> RecordOk(s, slot))
    && Distinct(s.starts)
    && (forall c :: c in s.starts ==> Owns(s, c))
    && (forall c :: c in s.results ==> c in s.starts)
  }

  /** A step of call c: other calls stay as they are, and only c's own record may move on. */
  ghost predicate StepOf(s: State, s': State, c: nat) {
    && s'.now == s.now
    && s.callers.Keys <= s'.callers.Keys && s'.callers.Keys <= s.callers.Keys + {c}
    && (forall d ::
          d in s.callers ==> s'.callers[d].op == s.callers[d].op && (d != c ==> s'.callers[d] == s.callers[d]))
    && s.table.Keys <= s'.table.Keys
    && (forall slot :: slot in s.table ==>
          Earlier(s.table[slot], s'.table[slot]) && (s.table[slot].token != c ==> s'.table[slot] == s.table[slot]))
    && (forall slot :: slot in s'.table && slot !in s.table ==> s'.table[slot].token == c)
    && (forall d :: d != c ==> (d in s'.starts <==> d in s.starts))
    && s.results.Keys <= s'.results.Keys && s'.results.Keys <= s.results.Keys + {c}
    && (forall d :: d in s.results && d != c ==> s'.results[d] == s.results[d])
  }

  lemma OtherCaller(s: State, s': State, c: nat, d: nat)
    requires Inv(s) && StepOf(s, s', c) && d in s.callers && d != c
    ensures CallerOk(s', d)
  {
    assert CallerOk(s, d);
    var op := s.callers[d].op;
    if op.slot in s.table {
      assert Earlier(s.table[op.slot], s'.table[op.slot]);
    }
  }

  lemma OtherRecord(s: State, s': State, c: nat, slot: Slot)
    requires Inv(s) && StepOf(s, s', c) && slot in s'.table && s'.table[slot].token != c
    ensures RecordOk(s', slot)
  {
    assert RecordOk(s, slot);
  }

  lemma OtherStarts(s: State, s': State, c: nat)
    requires Inv(s) && StepOf(s, s', c)
    ensures forall d :: d in s'.starts && d != c ==> Owns(s', d)
    ensures forall d :: d in s'.results && d != c ==> d in s'.starts
  {
    forall d | d in s'.starts && d != c ensures Owns(s', d) {
      assert Owns(s, d);
    }
  }

  /** What is left to show for a step of call c. */
  lemma StepOfKeeps(s: State, s': State, c: nat)
    requires Inv(s) && StepOf(s, s', c)
    requires c in s'.callers && CallerOk(s', c)
    requires forall slot :: slot in s'.table && s'.table[slot].token == c ==> RecordOk(s', slot)
    requires Distinct(s'.starts) && (c in s'.starts ==> Owns(s', c)) && (c in s'.results ==> c in s'.starts)
    ensures Inv(s')
  {
    hide CallerOk, RecordOk, Owns;
    OtherStarts(s, s', c);
    forall d | d in s'.callers ensures CallerOk(s', d) {
      if d != c {
        OtherCaller(s, s', c, d);
      }
    }
    forall slot | slot in s'.table ensures RecordOk(s', slot) {
      if s'.table[slot].token != c {
        OtherRecord(s, s', c, slot);
      }
    }
  }

  /** The only record with call c's token is the one under c's key. */
  lemma OwnRecord(s: State, c: nat, slot: Slot)
    requires Inv(s) && slot in s.table && s.table[slot].token == c
    ensures c in s.callers && s.callers[c].op.slot == slot && RecordOk(s, slot)
  {
    assert RecordOk(s, slot);
  }

  lemma BeginIsStep(s: State, s': State, c: nat, claim: Claim, pc: Pc)
    requires c !in s.callers && claim.token == c && forall slot :: slot in s.table ==> s.table[slot].token != c
    requires s' == s.(table := s'.table, callers := s.callers[c := Caller(claim.op, pc)])
    requires s'.table == s.table || s'.table == InsertIfAbsent(s.table, claim)
    ensures StepOf(s, s', c)
    ensures forall slot :: slot in s'.table && s'.table[slot].token == c ==> RecordOk(s', slot)
  {
  }

  lemma BeginKeeps(s: State, c: nat, op: Operation, expires: Time, pc: Pc, inserted: bool)
    requires Inv(s) && c !in s.callers
    requires var claim := Claim(op, c, expires);
      (inserted && pc == Inserted(claim, op.slot !in s.table)) || pc == Done(StoreError)
    ensures Inv(s.(table := if inserted then InsertIfAbsent(s.table, Claim(op, c, expires)) else s.table,
                   callers := s.callers[c := Caller(op, pc)]))
  {
    var claim := Claim(op, c, expires);
    var s' := s.(table := if inserted then InsertIfAbsent(s.table, claim) else s.table,
                 callers := s.callers[c := Caller(op, pc)]);
    Fresh(s, c);
    BeginIsStep(s, s', c, claim, pc);
    assert CallerOk(s', c);
    hide StepOf, CallerOk, RecordOk, InsertIfAbsent;
    StepOfKeeps(s, s', c);
  }

  lemma Fresh(s: State, c: nat)
    requires Inv(s) && c !in s.callers
    ensures c !in s.starts && c !in s.results && forall slot :: slot in s.table ==> s.table[slot].token != c
  {
    assert forall d :: d in s.starts ==> Owns(s, d);
    forall slot | slot in s.table ensures s.table[slot].token != c {
      assert RecordOk(s, slot);
    }
  }

  lemma GotoIsStep(s: State, c: nat, pc: Pc)
    requires c in s.callers
    ensures StepOf(s, Goto(s, c, pc), c)
  {
  }

  /** What stays true of call c's own record and runs when only its place in the program changes. */
  lemma OwnStays(s: State, s': State, c: nat)
    requires Inv(s) && c in s.callers && c in s'.callers && s'.callers[c].op == s.callers[c].op
    requires s'.callers.Keys == s.callers.Keys && s'.table == s.table && s'.results == s.results
    requires forall d :: d in s.callers ==> s'.callers[d].op == s.callers[d].op
    ensures forall slot :: slot in s'.table && s'.table[slot].token == c ==> RecordOk(s', slot)
    ensures c in s.starts ==> Owns(s', c)
  {
    forall slot | slot in s'.table && s'.table[slot].token == c ensures RecordOk(s', slot) {
      OwnRecord(s, c, slot);
    }
    if c in s.starts {
      assert Owns(s, c);
    }
  }

  /** A step that only moves call c on. */
  lemma GotoKeeps(s: State, c: nat, pc: Pc)
    requires Inv(s) && c in s.callers && CallerOk(Goto(s, c, pc), c)
    ensures Inv(Goto(s, c, pc))
  {
    hide CallerOk, RecordOk, Owns, StepOf;
    GotoIsStep(s, c, pc);
    OwnStays(s, Goto(s, c, pc), c);
    StepOfKeeps(s, Goto(s, c, pc), c);
  }

  lemma StartIsStep(s: State, s': State, c: nat, pc: Pc)
    requires c in s.callers && s' == Goto(s, c, pc).(starts := s.starts + [c])
    ensures StepOf(s, s', c)
  {
  }

  lemma StartCaller(s: State, s': State, c: nat)
    requires c in s.callers && PcOf(s, c).Running? && CallerOk(s, c)
    requires s' == Goto(s, c, InCallback(PcOf(s, c).claim)).(starts := s.starts + [c]) && c !in s.results
    ensures CallerOk(s', c) && Owns(s', c) && c !in s.starts
  {
  }

  lemma StartKeeps(s: State, c: nat)
    requires Inv(s) && c in s.callers && PcOf(s, c).Running?
    ensures Inv(Goto(s, c, InCallback(PcOf(s, c).claim)).(starts := s.starts + [c]))
  {
    var s' := Goto(s, c, InCallback(PcOf(s, c).claim)).(starts := s.starts + [c]);
    assert CallerOk(s, c);
    StartIsStep(s, s', c, s'.callers[c].pc);
    NotStarted(s, c);
    StartCaller(s, s', c);
    OwnStays(s, s', c);
    hide CallerOk, RecordOk, Owns, StepOf;
    StepOfKeeps(s, s', c);
  }

  lemma NotStarted(s: State, c: nat)
    requires Inv(s) && c in s.callers && PcOf(s, c).Running?
    ensures c !in s.starts && c !in s.results
  {
    assert CallerOk(s, c);
  }

  lemma EndIsStep(s: State, s': State, c: nat, pc: Pc, result: CallbackResult)
    requires c in s.callers && s' == Goto(s, c, pc).(results := s.results[c := result])
    ensures StepOf(s, s', c)
  {
  }

  /** While its callback runs, a call's record is executing. */
  lemma OwnExecuting(s: State, c: nat, slot: Slot)
    requires Inv(s) && c in s.callers && PcOf(s, c).InCallback? && slot in s.table && s.table[slot].token == c
    ensures c in s.callers && s.callers[c].op.slot == slot && s.table[slot].status == Executing
  {
    assert CallerOk(s, c);
    assert RecordOk(s, slot);
  }

  lemma EndCaller(s: State, s': State, c: nat, result: CallbackResult)
    requires c in s.callers && PcOf(s, c).InCallback? && CallerOk(s, c)
    requires s' == Goto(s, c, Returned(PcOf(s, c).claim, result, s.now)).(results := s.results[c := result])
    ensures CallerOk(s', c) && Owns(s', c) && c in s'.starts
  {
  }

  lemma EndKeeps(s: State, c: nat, result: CallbackResult)
    requires Inv(s) && c in s.callers && PcOf(s, c).InCallback?
    ensures Inv(Goto(s, c, Returned(PcOf(s, c).claim, result, s.now)).(results := s.results[c := result]))
  {
    var s' := Goto(s, c, Returned(PcOf(s, c).claim, result, s.now)).(results := s.results[c := result]);
    assert CallerOk(s, c);
    EndIsStep(s, s', c, s'.callers[c].pc, result);
    EndCaller(s, s', c, result);
    hide CallerOk, StepOf, Owns;
    forall slot | slot in s'.table && s'.table[slot].token == c ensures RecordOk(s', slot) {
      OwnExecuting(s, c, slot);
    }
    assert Distinct(s.starts);
    hide Inv, Distinct, RecordOk;
    StepOfKeeps(s, s', c);
  }

  /** The completing update changes nothing, or finishes the caller's own record, which was executing. */
  lemma CompletedIs(s: State, c: nat, slot: Slot)
    requires Inv(s) && c in s.callers && PcOf(s, c).Returned? && slot == s.callers[c].op.slot
    ensures var Returned(claim, result, completedAt) := PcOf(s, c);
      var table := Completed(s, claim, result, completedAt);
      && slot in s.table && s.table[slot].token == c && s.table[slot].status == Executing
      && c in s.starts && c in s.results && s.results[c] == result
      && s.table[slot].fingerprint == s.callers[c].op.fingerprint && s.table[slot].owner == s.callers[c].op.owner
      && (!Holds(s.table, claim, completedAt) ==> table == s.table)
      && (Holds(s.table, claim, completedAt) ==> table == s.table[slot := s.table[slot].(
            status := if Storable(result) then Succeeded else Failed,
            result := if Storable(result) then result.value else [])])
  {
    assert CallerOk(s, c);
  }

  lemma CompleteKeeps(s: State, c: nat, applied: bool, outcome: Outcome)
    requires Inv(s) && c in s.callers && PcOf(s, c).Returned?
    requires var Returned(claim, result, completedAt) := PcOf(s, c);
      outcome == StoreError || (applied && outcome ==
               if !Holds(s.table, claim, completedAt) then LeaseLost
               else if Storable(result) then Success(result.value, false) else CallbackFailed)
    ensures var Returned(claim, result, completedAt) := PcOf(s, c);
      Inv(Goto(s, c, Done(outcome)).(table := if applied then Completed(s, claim, result, completedAt) else s.table))
  {
    var slot := s.callers[c].op.slot;
    var Returned(claim, result, completedAt) := PcOf(s, c);
    CompletedIs(s, c, slot);
    FinishKeeps(s, c, slot, if applied then Completed(s, claim, result, completedAt) else s.table, outcome);
  }

  lemma FinishKeeps(s: State, c: nat, slot: Slot, table: Table, outcome: Outcome)
    requires Inv(s) && c in s.callers && slot == s.callers[c].op.slot
    requires slot in s.table && s.table[slot].token == c && s.table[slot].status == Executing
    requires s.table[slot].fingerprint == s.callers[c].op.fingerprint && s.table[slot].owner == s.callers[c].op.owner
    requires c in s.starts && c in s.results
    requires table == s.table || table == s.table[slot := s.table[slot].(
               status := if Storable(s.results[c]) then Succeeded else Failed,
               result := if Storable(s.results[c]) then s.results[c].value else [])]
    requires outcome == StoreError || outcome == LeaseLost || outcome == CallbackFailed
             || (table[slot].status == Succeeded && outcome == Success(table[slot].result, false))
    ensures Inv(Goto(s, c, Done(outcome)).(table := table))
  {
    var s' := Goto(s, c, Done(outcome)).(table := table);
    forall other | other in s'.table && s'.table[other].token == c ensures RecordOk(s', other) {
      OwnRecord(s, c, other);
    }
    FinishIsStep(s, s', c, slot);
    assert Distinct(s.starts);
    hide Inv, StepOf, RecordOk, Distinct, Storable;
    assert CallerOk(s', c);
    assert Owns(s', c);
    StepOfKeeps(s, s', c);
  }

  lemma FinishIsStep(s: State, s': State, c: nat, slot: Slot)
    requires c in s.callers && slot in s.table && s.table[slot].token == c && s.table[slot].status == Executing
    requires s' == s.(callers := s'.callers, table := s'.table)
    requires c in s'.callers && s'.callers == s.callers[c := s.callers[c].(pc := s'.callers[c].pc)]
    requires s'.table == s.table || (slot in s'.table && s'.table == s.table[slot := s.table[slot].(
               status := s'.table[slot].status, result := s'.table[slot].result)])
    ensures StepOf(s, s', c)
  {
  }

  lemma ReadBackKeeps(s: State, c: nat)
    requires Inv(s) && Enabled(s, ReadBack(c))
    ensures Inv(Apply(s, ReadBack(c)))
  {
    assert CallerOk(s, c);
    GotoKeeps(s, c, PcOf(Apply(s, ReadBack(c)), c));
  }

  lemma LookKeeps(s: State, c: nat)
    requires Inv(s) && Enabled(s, Look(c))
    ensures Inv(Apply(s, Look(c)))
  {
    assert CallerOk(s, c);
    assert CallerOk(Apply(s, Look(c)), c);
    hide Inv, CallerOk;
    GotoKeeps(s, c, PcOf(Apply(s, Look(c)), c));
  }

  lemma RereadKeeps(s: State, c: nat)
    requires Inv(s) && Enabled(s, Reread(c))
    ensures Inv(Apply(s, Reread(c)))
  {
    assert CallerOk(Apply(s, Reread(c)), c);
    hide Inv, CallerOk;
    GotoKeeps(s, c, PcOf(Apply(s, Reread(c)), c));
  }

  lemma StopsKeep(s: State, c: nat, outcome: Outcome)
    requires Inv(s) && c in s.callers && (outcome == StoreError || outcome == GaveUp)
    ensures Inv(Goto(s, c, Done(outcome)))
  {
    hide Inv;
    GotoKeeps(s, c, Done(outcome));
  }

  lemma TickKeeps(s: State, time: Time)
    requires Inv(s) && s.now <= time
    ensures Inv(s.(now := time))
  {
    forall c | c in s.callers ensures CallerOk(s.(now := time), c) {
      assert CallerOk(s, c);
    }
    forall slot | slot in s.table ensures RecordOk(s.(now := time), slot) {
      assert RecordOk(s, slot);
    }
    forall c | c in s.starts ensures Owns(s.(now := time), c) {
      assert Owns(s, c);
    }
  }

  lemma StepKeeps(s: State, a: Action)
    requires Inv(s) && Enabled(s, a)
    ensures Inv(Apply(s, a))
  {
    hide Inv;
    match a
    case Tick(time) => TickKeeps(s, time);
    case Begin(c, op, at, expires) =>
      BeginKeeps(s, c, op, expires, Inserted(Claim(op, c, expires), op.slot !in s.table), true);
    case BeginFails(c, op, at, expires, inserted) => BeginKeeps(s, c, op, expires, Done(StoreError), inserted);
    case ReadBack(c) => ReadBackKeeps(s, c);
    case StartCallback(c) => StartKeeps(s, c);
    case EndCallback(c, result) =>
      EndKeeps(s, c, result);
    case Complete(c) => CompleteKeeps(s, c, true, PcOf(Apply(s, a), c).outcome);
    case CompleteFails(c, applied) => CompleteKeeps(s, c, applied, StoreError);
    case Look(c) => LookKeeps(s, c);
    case Reread(c) => RereadKeeps(s, c);
    case GiveUp(c) => StopsKeep(s, c, GaveUp);
    case ReadFails(c) => StopsKeep(s, c, StoreError);
  }

  lemma {:induction false} InvAlong(states: seq<State>, acts: seq<Action>, k: nat)
    requires Behaviour(states, acts) && k < |states|
    ensures Inv(states[k])
  {
    hide Apply, Enabled;
    if k > 0 {
      InvAlong(states, acts, k - 1);
      StepAt(states, acts, k - 1);
      StepKeeps(states[k - 1], acts[k - 1]);
    }
  }

  lemma ReachableInv(s: State)
    requires Reachable(s)
    ensures Inv(s)
  {
    hide Inv;
    var states, acts :| Behaviour(states, acts) && states[|acts|] == s;
    InvAlong(states, acts, |acts|);
  }

  // ---- one call, statement by statement ----

  /** One round of waiting: the clock at the check, and what ended the wait. */
  datatype Wake = ContextDone | ReadFailed | Read(record: Record)
  datatype Round = Round(now: Time, wake: Wake)

  /** The record a waiting call looks at in the given round. */
  ghost function SeenAt(first: Record, rounds: seq<Round>, n: nat): Option<Record>
    requires n <= |rounds|
  {
    if n == 0 then Some(first) else if rounds[n - 1].wake.Read? then Some(rounds[n - 1].wake.record) else None
  }

  /** In round k the record in sight was the right one and its call could still succeed. */
  ghost predicate Undecided(fingerprint: string, first: Record, rounds: seq<Round>, k: nat)
    requires k < |rounds|
  {
    && SeenAt(first, rounds, k).Some? && SeenAt(first, rounds, k).value.fingerprint == fingerprint
    && SeenAt(first, rounds, k).value.status == Executing && rounds[k].now < SeenAt(first, rounds, k).value.expires
  }

  /** What the record tells a call with its fingerprint. */
  ghost predicate Tells(r: Record, now: Time, outcome: Outcome) {
    match r.status
    case Succeeded => outcome == Success(r.result, true)
    case Failed => outcome == PreviousFailure
    case Executing => r.expires <= now && outcome == OutcomeUnknown
  }

  /** What ends a wait without a verdict. */
  ghost predicate Interrupts(fingerprint: string, wake: Wake, outcome: Outcome) {
    match wake
    case ContextDone => outcome == GaveUp
    case ReadFailed => outcome == StoreError
    case Read(next) => next.fingerprint != fingerprint && outcome == KeyConflict
  }

  lemma StillUndecided(fingerprint: string, first: Record, rounds: seq<Round>, k: nat, record: Record)
    requires k < |rounds| && SeenAt(first, rounds, k) == Some(record)
    requires record.fingerprint == fingerprint && Judge(record, rounds[k].now).None?
    ensures Undecided(fingerprint, first, rounds, k)
  {
  }

  /** The loop of replayOrWait; None means that the rounds ran out while it was still waiting. */
  method ReplayOrWait(fingerprint: string, first: Record, rounds: seq<Round>) returns (outcome: Option<Outcome>, n: nat)
    requires first.fingerprint == fingerprint
    ensures n <= |rounds|
    ensures forall k :: 0 <= k < n ==> Undecided(fingerprint, first, rounds, k)
    ensures outcome.None? ==> n == |rounds|
    ensures outcome.Some? ==>
              || (n > 0 && Interrupts(fingerprint, rounds[n - 1].wake, outcome.value))
              || (n < |rounds| && SeenAt(first, rounds, n).Some?
                  && SeenAt(first, rounds, n).value.fingerprint == fingerprint
                  && Tells(SeenAt(first, rounds, n).value, rounds[n].now, outcome.value))
  {
    hide Undecided;
    var record := first;
    n := 0;
    while n < |rounds|
      invariant n <= |rounds| && record.fingerprint == fingerprint && SeenAt(first, rounds, n) == Some(record)
      invariant forall k :: 0 <= k < n ==> Undecided(fingerprint, first, rounds, k)
    {
      outcome := Judge(record, rounds[n].now);
      if outcome.Some? {
        return;
      }
      StillUndecided(fingerprint, first, rounds, n, record);
      match rounds[n].wake {
        case ContextDone => return Some(GaveUp), n + 1;
        case ReadFailed => return Some(StoreError), n + 1;
        case Read(next) =>
          if next.fingerprint != fingerprint {
            return Some(KeyConflict), n + 1;
          }
          record := next;
      }
      n := n + 1;
    }
    outcome := None;
  }

  /** `nilIsNull` says that the driver binds a nil slice as NULL; an empty result is such a slice when it is stored. */
  class RecordTable {
    const nilIsNull: bool
    var rows: Table

    constructor (nilIsNull: bool)
      ensures this.nilIsNull == nilIsNull && rows == map[]
    {
      this.nilIsNull, rows := nilIsNull, map[];
    }

    /** The table's check on the result of a succeeded record. */
    predicate Fits(result: Bytes) {
      |result| <= MAX_RESULT_BYTES && (nilIsNull ==> result != [])
    }

    method BeginIdempotent(claim: Claim, now: Time) returns (r: Result<(Record, bool), Outcome>)
      modifies this
      ensures rows == if now < claim.expires then InsertIfAbsent(old(rows), claim) else old(rows)
      ensures r == Err(InvalidRequest) <==> claim.expires <= now
      ensures r.Ok? <==> now < claim.expires
                         && (claim.op.slot in old(rows) ==>
                               old(rows)[claim.op.slot].fingerprint == claim.op.fingerprint)
      ensures r.Ok? ==> r.value == (rows[claim.op.slot], claim.op.slot !in old(rows))
      ensures r.Err? ==> r.error == InvalidRequest || r.error == KeyConflict
    {
      if claim.expires <= now {
        return Err(InvalidRequest);
      }
      var absent := claim.op.slot !in rows;
      if absent {
        rows := rows[claim.op.slot :=
          Record(claim.op.fingerprint, claim.op.owner, Executing, claim.token, claim.expires, [])];
      }
      var record := rows[claim.op.slot];
      if record.fingerprint != claim.op.fingerprint {
        return Err(KeyConflict);
      }
      r := Ok((record, absent));
    }

    /** The arguments of a completion. */
    ghost predicate ValidCompletion(status: Status, result: Bytes) {
      status != Executing && (status == Failed ==> result == [])
    }

    method CompleteIdempotent(claim: Claim, status: Status, result: Bytes, completedAt: Time)
      returns (error: Option<Outcome>)
      modifies this
      ensures rows == if error.None? then CompleteRow(old(rows), claim, status, result, completedAt) else old(rows)
      ensures error == Some(InvalidRequest) <==> !ValidCompletion(status, result)
      ensures error == Some(LeaseLost) <==> ValidCompletion(status, result) && !Holds(old(rows), claim, completedAt)
      ensures error == Some(StoreError) <==>
                ValidCompletion(status, result) && Holds(old(rows), claim, completedAt) && status == Succeeded
                  && !Fits(result)
      ensures error in {None, Some(InvalidRequest), Some(LeaseLost), Some(StoreError)}
    {
      if status == Executing || (status == Failed && result != []) {
        return Some(InvalidRequest);
      }
      if claim.op.slot !in rows {
        return Some(LeaseLost);
      }
      var row := rows[claim.op.slot];
      if row.fingerprint != claim.op.fingerprint || row.owner != claim.op.owner || row.status != Executing
         || row.token != claim.token || completedAt > row.expires {
        return Some(LeaseLost);
      }
      if status == Succeeded && !Fits(result) {
        return Some(StoreError);
      }
      rows := rows[claim.op.slot := row.(status := status, result := if status == Succeeded then result else [])];
      error := None;
    }

    /**
     Manager.Execute without other callers in between. The callback runs exactly when the key is new;
     its bytes are returned exactly when they could be stored in time, and then stay stored. An empty
     result that the table refuses leaves the record executing.
     */
    method Execute(op: Operation, token: nat, now: Time, expires: Time, callback: CallbackResult, completedAt: Time,
                   rounds: seq<Round>)
      returns (outcome: Option<Outcome>, ran: bool)
      modifies this
      ensures ran <==> now < expires && op.slot !in old(rows)
      ensures !ran ==> rows == old(rows)
      ensures ran ==> (outcome.Some? && outcome.value.Success? <==>
                       && callback.Some? && |callback.value| <= MAX_RESULT_BYTES && completedAt <= expires
                       && !(nilIsNull && callback.value == []))
      ensures outcome.Some? && outcome.value.Success? && ran ==>
                && callback == Some(outcome.value.bytes) && !outcome.value.replayed
                && rows == old(rows)[op.slot :=
                     Record(op.fingerprint, op.owner, Succeeded, token, expires, outcome.value.bytes)]
      ensures ran && callback == Some([]) && nilIsNull && completedAt <= expires ==>
                && outcome == Some(StoreError)
                && rows == old(rows)[op.slot := Record(op.fingerprint, op.owner, Executing, token, expires, [])]
      ensures ran && !(callback.Some? && |callback.value| <= MAX_RESULT_BYTES) && completedAt <= expires ==>
                && outcome == Some(CallbackFailed)
                && rows == old(rows)[op.slot := Record(op.fingerprint, op.owner, Failed, token, expires, [])]
      ensures ran && completedAt > expires ==>
                && outcome == Some(LeaseLost)
                && rows == old(rows)[op.slot := Record(op.fingerprint, op.owner, Executing, token, expires, [])]
      ensures expires <= now ==> outcome == Some(GaveUp)
      ensures !ran && now < expires && old(rows)[op.slot].fingerprint != op.fingerprint ==> outcome == Some(KeyConflict)
      ensures !ran && now < expires && rounds != [] && old(rows)[op.slot].fingerprint == op.fingerprint ==>
                match old(rows)[op.slot].status
                case Succeeded => outcome == Some(Success(old(rows)[op.slot].result, true))
                case Failed => outcome == Some(PreviousFailure)
                case Executing => rounds[0].now >= old(rows)[op.slot].expires ==> outcome == Some(OutcomeUnknown)
    {
      ran := false;
      if expires <= now {
        return Some(GaveUp), ran;
      }
      var claim := Claim(op, token, expires);
      var begun := BeginIdempotent(claim, now);
      if begun.Err? {
        return Some(begun.error), ran;
      }
      if !begun.value.1 {
        var n;
        outcome, n := ReplayOrWait(op.fingerprint, begun.value.0, rounds);
        assert n > 0 ==> Undecided(op.fingerprint, begun.value.0, rounds, 0);
        return;
      }
      ran := true;
      var error;
      if Storable(callback) {
        error := CompleteIdempotent(claim, Succeeded, callback.value, completedAt);
        outcome := if error.None? then Some(Success(callback.value, false)) else error;
      } else {
        error := CompleteIdempotent(claim, Failed, [], completedAt);
        outcome := if error.None? then Some(CallbackFailed) else error;
      }
    }
  }
}
