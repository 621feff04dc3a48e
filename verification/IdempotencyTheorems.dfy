/** What holds over every run of idempotent callers. */
module IdempotencyTheorems {
  import opened Common
  import opened Idempotency

  /** On one key the callback begins at most once, however many callers there are. */
  lemma AtMostOnce(s: State, i: nat, j: nat)
    requires Reachable(s) && i < j < |s.starts|
    ensures s.starts[i] in s.callers && s.starts[j] in s.callers
    ensures s.callers[s.starts[i]].op.slot != s.callers[s.starts[j]].op.slot
  {
    ReachableInv(s);
    assert Owns(s, s.starts[i]) && Owns(s, s.starts[j]);
  }

  ghost predicate Succeeds(s: State, c: nat) {
    c in s.callers && s.callers[c].pc.Done? && s.callers[c].pc.outcome.Success?
  }

  /** Every successful return carries the bytes of the one callback run on its key, made for its own fingerprint. */
  lemma SuccessIsTheOneRun(s: State, c: nat)
    requires Reachable(s) && Succeeds(s, c)
    ensures var op := s.callers[c].op; exists d ::
      && d in s.starts && d in s.callers && s.callers[d].op.slot == op.slot
      && s.callers[d].op.fingerprint == op.fingerprint
      && d in s.results && s.results[d] == Some(s.callers[c].pc.outcome.bytes)
  {
    ReachableInv(s);
    assert CallerOk(s, c);
    var slot := s.callers[c].op.slot;
    assert RecordOk(s, slot);
    var d := s.table[slot].token;
    assert d in s.starts && Owns(s, d);
  }

  /** Two successful calls on one key had the same fingerprint and return the same bytes. */
  lemma SuccessesAgree(s: State, c: nat, d: nat)
    requires Reachable(s) && Succeeds(s, c) && Succeeds(s, d) && s.callers[c].op.slot == s.callers[d].op.slot
    ensures s.callers[c].op.fingerprint == s.callers[d].op.fingerprint
    ensures s.callers[c].pc.outcome.bytes == s.callers[d].pc.outcome.bytes
    ensures !s.callers[c].pc.outcome.replayed && !s.callers[d].pc.outcome.replayed ==> c == d
  {
    ReachableInv(s);
    assert CallerOk(s, c) && CallerOk(s, d);
  }

  /** A replayed failure means that the one run failed or returned too much. */
  lemma FailureIsTheOneRun(s: State, c: nat)
    requires Reachable(s) && c in s.callers && s.callers[c].pc == Done(PreviousFailure)
    ensures exists d :: d in s.starts && d in s.callers && s.callers[d].op.slot == s.callers[c].op.slot
                        && d in s.results && !Storable(s.results[d])
  {
    ReachableInv(s);
    assert CallerOk(s, c);
    var slot := s.callers[c].op.slot;
    assert RecordOk(s, slot);
    var d := s.table[slot].token;
    assert d in s.starts && Owns(s, d);
  }

  /** A conflict means a record of another fingerprint, and an unknown outcome a lease that has ended. */
  lemma RefusalsAreTrue(s: State, c: nat)
    requires Reachable(s) && c in s.callers && s.callers[c].pc.Done?
    ensures var op, outcome := s.callers[c].op, s.callers[c].pc.outcome;
      && (outcome == KeyConflict ==> op.slot in s.table && s.table[op.slot].fingerprint != op.fingerprint)
      && (outcome == OutcomeUnknown ==>
            op.slot in s.table && s.table[op.slot].fingerprint == op.fingerprint && s.table[op.slot].expires <= s.now)
  {
    ReachableInv(s);
    assert CallerOk(s, c);
  }

  // ---- what becomes of a record ----

  /**
   An owner that can still complete a record with this lease end: it has either not finished its
   callback while the lease runs, or has read the clock after its callback before the lease's end.
   */
  predicate Live(pc: Pc, now: Time, expires: Time) {
    match pc
    case Inserted(_, claimed) => claimed && now <= expires
    case Running(_) => now <= expires
    case InCallback(_) => now <= expires
    case Returned(_, _, completedAt) => completedAt <= expires
    case _ => false
  }

  /** Whether a record can still be completed: it is executing, and its owner is live. */
  ghost predicate Open(s: State, slot: Slot) {
    && slot in s.table && s.table[slot].status == Executing && s.table[slot].token in s.callers
    && Live(s.callers[s.table[slot].token].pc, s.now, s.table[slot].expires)
  }

  /** What one step may do to a record: move it once from executing to its final value, while it is open. */
  ghost predicate RecordMoves(s: State, s': State, slot: Slot) {
    slot in s.table ==>
      && slot in s'.table && Earlier(s.table[slot], s'.table[slot])
      && (s'.table[slot] != s.table[slot] ==> Open(s, slot))
      && (!Open(s, slot) ==> !Open(s', slot))
  }

  /** Only the completion of a record's own owner, with a reading in time, changes it. */
  lemma CompletionMoves(s: State, c: nat, slot: Slot)
    requires Inv(s) && c in s.callers && PcOf(s, c).Returned? && slot in s.table
    ensures var Returned(claim, result, completedAt) := PcOf(s, c);
      var table := Completed(s, claim, result, completedAt);
      slot in table && Earlier(s.table[slot], table[slot]) && (table[slot] != s.table[slot] ==> Open(s, slot))
  {
    CompletedIs(s, c, s.callers[c].op.slot);
    hide Inv, Completed;
  }

  lemma MovesWhileOpen(s: State, a: Action, slot: Slot)
    requires Inv(s) && Enabled(s, a) && slot in s.table
    ensures var s' := Apply(s, a);
      slot in s'.table && Earlier(s.table[slot], s'.table[slot]) && (s'.table[slot] != s.table[slot] ==> Open(s, slot))
  {
    hide Inv, Completed, Open, Judge, Holds;
    match a
    case Complete(c) => CompletionMoves(s, c, slot);
    case CompleteFails(c, _) => CompletionMoves(s, c, slot);
    case _ =>
  }

  /** No step of its own or of another call makes an owner live again. */
  lemma DeadStays(s: State, a: Action, c: nat, expires: Time)
    requires Enabled(s, a) && c in s.callers && !Live(s.callers[c].pc, s.now, expires)
    ensures var s' := Apply(s, a); c in s'.callers && !Live(s'.callers[c].pc, s'.now, expires)
  {
    hide Completed, Holds, InsertIfAbsent, Judge, Storable;
  }

  lemma ClosedStays(s: State, a: Action, slot: Slot)
    requires Inv(s) && Enabled(s, a) && slot in s.table && !Open(s, slot)
    ensures !Open(Apply(s, a), slot)
  {
    MovesWhileOpen(s, a, slot);
    assert RecordOk(s, slot);
    hide Apply, Enabled, Inv, RecordOk, Live;
    if s.table[slot].status == Executing {
      DeadStays(s, a, s.table[slot].token, s.table[slot].expires);
    }
  }

  lemma StatusMovesOnce(s: State, a: Action, slot: Slot)
    requires Inv(s) && Enabled(s, a)
    ensures RecordMoves(s, Apply(s, a), slot)
  {
    hide Inv, Open, Apply, Enabled, Earlier;
    if slot in s.table {
      MovesWhileOpen(s, a, slot);
      if !Open(s, slot) {
        ClosedStays(s, a, slot);
      }
    }
  }

  /** The actions can be taken one after the other, and lead from the one state to the other. */
  ghost predicate Leads(s: State, acts: seq<Action>, end: State)
    decreases |acts|
  {
    if acts == [] then s == end
    else Enabled(s, acts[0]) && Leads(Apply(s, acts[0]), acts[1..], end)
  }

  lemma {:induction false} MovesAlong(s: State, acts: seq<Action>, end: State, slot: Slot)
    requires Inv(s) && Leads(s, acts, end)
    ensures RecordMoves(s, end, slot)
    decreases |acts|
  {
    hide Apply, Enabled, Open, Inv;
    if acts != [] {
      StatusMovesOnce(s, acts[0], slot);
      StepKeeps(s, acts[0]);
      MovesAlong(Apply(s, acts[0]), acts[1..], end, slot);
    }
  }

  /**
   Along any run a record keeps its fingerprint and lease and leaves executing at most once; one that
   is not open never changes again.
   */
  lemma RecordHistory(s: State, acts: seq<Action>, end: State, slot: Slot)
    requires Reachable(s) && Leads(s, acts, end) && slot in s.table
    ensures slot in end.table && Earlier(s.table[slot], end.table[slot])
    ensures !Open(s, slot) ==> end.table[slot] == s.table[slot]
  {
    hide Apply, Enabled, Open, Inv;
    ReachableInv(s);
    MovesAlong(s, acts, end, slot);
  }

  /** What the owner of an open record does next, if nothing fails. */
  function NextAction(s: State, c: nat): Action
    requires c in s.callers
  {
    match s.callers[c].pc
    case Inserted(_, _) => ReadBack(c)
    case Running(_) => StartCallback(c)
    case InCallback(_) => EndCallback(c, None)
    case _ => Complete(c)
  }

  /** How many steps an owner is from the end. */
  function Ahead(pc: Pc): nat {
    match pc
    case Inserted(_, _) => 4
    case Running(_) => 3
    case InCallback(_) => 2
    case Returned(_, _, _) => 1
    case _ => 0
  }

  lemma OpenGoesOn(s: State, slot: Slot)
    requires Inv(s) && Open(s, slot)
    ensures var c := s.table[slot].token;
      && Enabled(s, NextAction(s, c))
      && var s' := Apply(s, NextAction(s, c));
         && slot in s'.table && c in s'.callers && Ahead(s'.callers[c].pc) < Ahead(s.callers[c].pc)
         && (s'.table[slot] != s.table[slot] || (s'.table[slot] == s.table[slot] && Open(s', slot)))
  {
    var c := s.table[slot].token;
    assert RecordOk(s, slot);
    assert CallerOk(s, c);
    if s.callers[c].pc.Returned? {
      CompletedIs(s, c, slot);
    }
    hide RecordOk, Inv, Completed;
  }

  lemma {:induction false} OpenCanMove(s: State, slot: Slot) returns (acts: seq<Action>, end: State)
    requires Inv(s) && Open(s, slot)
    ensures Leads(s, acts, end) && slot in end.table && end.table[slot] != s.table[slot]
    decreases if slot in s.table && s.table[slot].token in s.callers then Ahead(s.callers[s.table[slot].token].pc)
              else 0
  {
    var a := NextAction(s, s.table[slot].token);
    var s' := Apply(s, a);
    OpenGoesOn(s, slot);
    hide Apply, Enabled, Open, Inv;
    if s'.table[slot] != s.table[slot] {
      acts, end := [a], s';
      assert Leads(s', [], end);
    } else {
      StepKeeps(s, a);
      var rest;
      rest, end := OpenCanMove(s', slot);
      acts := [a] + rest;
      assert acts[1..] == rest;
    }
  }

  /** Some run that goes on from the state changes the record. */
  ghost predicate CanChange(s: State, slot: Slot)
    requires slot in s.table
  {
    exists acts, end :: Leads(s, acts, end) && slot in end.table && end.table[slot] != s.table[slot]
  }

  /** A record can still change exactly while it is open. */
  lemma OpenExactly(s: State, slot: Slot)
    requires Reachable(s) && slot in s.table
    ensures Open(s, slot) <==> CanChange(s, slot)
  {
    ReachableInv(s);
    hide Leads, Inv, Open;
    if Open(s, slot) {
      var acts, end := OpenCanMove(s, slot);
    } else {
      forall acts, end | Leads(s, acts, end) ensures slot in end.table && end.table[slot] == s.table[slot] {
        MovesAlong(s, acts, end, slot);
      }
    }
  }

  // ---- a completion after the lease's end ----

  const SLOT: Slot := Slot("a", "s", "k")
  const OP: Operation := Operation(SLOT, "f", "o")
  const BYTES: Bytes := [1]
  const OWNER: Claim := Claim(OP, 0, 10)
  const PENDING: Record := Record("f", "o", Executing, 0, 10, [])
  const STORED: Record := Record("f", "o", Succeeded, 0, 10, BYTES)
  const READ: Pc := Returned(OWNER, Some(BYTES), 0)

  lemma ReachesNext(s: State, a: Action, s': State)
    requires Reachable(s) && Step(s, a, s')
    ensures Reachable(s')
  {
    hide Apply, Enabled;
    var states, acts :| Behaviour(states, acts) && states[|acts|] == s;
    var longer, more := states + [s'], acts + [a];
    forall i | 0 <= i < |more| ensures Step(longer[i], more[i], longer[i + 1]) {
      if i < |acts| {
        StepAt(states, acts, i);
      }
    }
    assert Behaviour(longer, more) && longer[|more|] == s';
  }

  /**
   A state of the run: the calls so far, and whether the callback of call 0 has begun and ended and
   its result is stored.
   */
  function LateState(now: Time, record: Record, begun: bool, ended: bool, calls: map<nat, Pc>): State {
    State(now, map[SLOT := record], map c | c in calls :: Caller(OP, calls[c]),
          if begun then [0] else [], if ended then map[0 := Some(BYTES)] else map[])
  }

  /** Call 0 starts its callback. */
  lemma OwnerStarts()
    ensures Reachable(LateState(0, PENDING, true, false, map[0 := InCallback(OWNER)]))
  {
    var none: seq<Action> := [];
    assert Behaviour([INIT], none) && [INIT][|none|] == INIT;
    var s1 := LateState(0, PENDING, false, false, map[0 := Inserted(OWNER, true)]);
    var s2 := LateState(0, PENDING, false, false, map[0 := Running(OWNER)]);
    ReachesNext(INIT, Begin(0, OP, 0, 10), s1);
    ReachesNext(s1, ReadBack(0), s2);
    ReachesNext(s2, StartCallback(0), LateState(0, PENDING, true, false, map[0 := InCallback(OWNER)]));
  }

  /** Call 1 waits for it. */
  lemma OtherWaits()
    ensures Reachable(LateState(0, PENDING, true, false, map[0 := InCallback(OWNER), 1 := Waiting(PENDING)]))
  {
    OwnerStarts();
    var s3 := LateState(0, PENDING, true, false, map[0 := InCallback(OWNER)]);
    var s4 := LateState(0, PENDING, true, false, map[0 := InCallback(OWNER), 1 := Inserted(Claim(OP, 1, 10), false)]);
    var s5 := LateState(0, PENDING, true, false, map[0 := InCallback(OWNER), 1 := Waiting(PENDING)]);
    ReachesNext(s3, Begin(1, OP, 0, 10), s4);
    ReachesNext(s4, ReadBack(1), s5);
  }

  /** Call 0 reads the clock in time, and the lease ends. */
  lemma OwnerReturns()
    ensures Reachable(LateState(20, PENDING, true, true, map[0 := READ, 1 := Waiting(PENDING)]))
  {
    OtherWaits();
    var s5 := LateState(0, PENDING, true, false, map[0 := InCallback(OWNER), 1 := Waiting(PENDING)]);
    var s6 := LateState(0, PENDING, true, true, map[0 := READ, 1 := Waiting(PENDING)]);
    var s7 := LateState(20, PENDING, true, true, map[0 := READ, 1 := Waiting(PENDING)]);
    ReachesNext(s5, EndCallback(0, Some(BYTES)), s6);
    ReachesNext(s6, Tick(20), s7);
  }

  const OWNER_DONE: Pc := Done(Success(BYTES, false))
  const TOLD: Pc := Done(OutcomeUnknown)

  /** Call 1 is told that the outcome is unknown, and then call 0 completes. */
  lemma OwnerCompletesLate()
    ensures Reachable(LateState(20, PENDING, true, true, map[0 := READ, 1 := TOLD]))
    ensures Reachable(LateState(20, STORED, true, true, map[0 := OWNER_DONE, 1 := TOLD]))
  {
    OwnerReturns();
    var s7 := LateState(20, PENDING, true, true, map[0 := READ, 1 := Waiting(PENDING)]);
    var s8 := LateState(20, PENDING, true, true, map[0 := READ, 1 := TOLD]);
    ReachesNext(s7, Look(1), s8);
    ReachesNext(s8, Complete(0), LateState(20, STORED, true, true, map[0 := OWNER_DONE, 1 := TOLD]));
  }

  lemma LaterCallReads()
    ensures Reachable(LateState(20, STORED, true, true, map[0 := OWNER_DONE, 1 := TOLD, 2 := Waiting(STORED)]))
  {
    OwnerCompletesLate();
    var inserted := Inserted(Claim(OP, 2, 30), false);
    var s9 := LateState(20, STORED, true, true, map[0 := OWNER_DONE, 1 := TOLD]);
    var s10 := LateState(20, STORED, true, true, map[0 := OWNER_DONE, 1 := TOLD, 2 := inserted]);
    ReachesNext(s9, Begin(2, OP, 20, 30), s10);
    ReachesNext(s10, ReadBack(2),
                LateState(20, STORED, true, true, map[0 := OWNER_DONE, 1 := TOLD, 2 := Waiting(STORED)]));
  }

  lemma LaterCallReplays()
    ensures Reachable(LateState(20, STORED, true, true,
                                map[0 := OWNER_DONE, 1 := TOLD, 2 := Done(Success(BYTES, true))]))
  {
    LaterCallReads();
    var s11 := LateState(20, STORED, true, true, map[0 := OWNER_DONE, 1 := TOLD, 2 := Waiting(STORED)]);
    var s12 := LateState(20, STORED, true, true, map[0 := OWNER_DONE, 1 := TOLD, 2 := Done(Success(BYTES, true))]);
    ReachesNext(s11, Look(2), s12);
  }

  /**
   A record is completed after its lease's end: one call has been told that the outcome is unknown, and
   a later call with the same fingerprint gets the stored bytes.
   */
  lemma LateCompletion()
    ensures exists s ::
              Reachable(s) && SLOT in s.table && s.table[SLOT] == PENDING && s.now > PENDING.expires && Open(s, SLOT)
    ensures exists s :: Reachable(s) && SLOT in s.table && s.table[SLOT] == STORED && 1 in s.callers && 2 in s.callers
                        && s.callers[1] == Caller(OP, TOLD) && s.callers[2] == Caller(OP, Done(Success(BYTES, true)))
  {
    OwnerCompletesLate();
    LaterCallReplays();
    hide Reachable;
    assert Open(LateState(20, PENDING, true, true, map[0 := READ, 1 := TOLD]), SLOT);
  }
}
