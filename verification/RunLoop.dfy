/** The receive loop of one run attempt: an executor's frames against the run's protocol and budgets. */
module RunLoop {
  import opened Common

  newtype uint32 = x: int | 0 <= x < 0x1_0000_0000
  newtype uint64 = x: int | 0 <= x < 0x1_0000_0000_0000_0000

  const VERSION: string := "4.0"
  const MAX_EXECUTION_UNITS: uint64 := 1_000_000_000
  const MAX_COST: uint64 := 1_000_000_000_000_000
  const MAX_RETRIES: uint32 := 320
  const MAX_DELTA_BYTES: nat := 16 * 1024
  const MAX_OUTPUT_BYTES: nat := 256 * 1024

  datatype Run = Run(id: string, echoId: string, attempt: uint32, maxOutputBytes: uint64, maxCapabilityCalls: uint32,
                     maxUnits: uint64, maxCost: uint64, usedUnits: uint64, usedCost: uint64, usedRetries: uint32,
                     lastSequence: uint64)

  /** `typed` says whether the content type is a valid one. */
  datatype Payload = Payload(typed: bool, data: seq<bv8>)

  /** `valid` stands for the token, text and JSON rules of a call's or a failure's fields. */
  datatype Body =
    | RunAccepted(version: string)
    | CapabilityCall(callId: string, capabilityId: string, valid: bool)
    | OutputDelta(delta: Option<Payload>)
    | FinalResult(result: Option<Payload>)
    | RunFailure(code: string, retryable: bool, valid: bool)
    | ResourceUsage(units: uint64, cost: uint64, retries: uint32)
    | KernelBody

  /** `intact` says that the frame is present, within the size limit and has no unknown field. */
  datatype Frame = Frame(intact: bool, echoId: string, runId: string, sequence: uint64, body: Option<Body>)

  datatype Received = Got(frame: Frame) | EndOfStream | Broken

  datatype Context = Live | Cancelled | DeadlineExceeded

  /**
   Everything one turn of the loop may meet. The contexts are what the run's context says after each
   operation that can fail; `resultValid` is the local check of the capability result frame.
   */
  datatype Turn = Turn(received: Received, atReceive: Context, leaseLost: bool,
                       advanced: bool, atAdvance: Context, atInvoke: Context, resultValid: bool,
                       sent: bool, atSend: Context, emitted: bool, atEmit: Context)

  datatype Code = ProtocolViolation | BudgetExceeded | StreamFailed | LeaseLost | EventDeliveryFailed | InternalError
                | RunCancelled | RunDeadline | ExecutorReported(code: string)

  datatype PublicError = PublicError(code: Code, retryable: bool)

  datatype Status = Succeeded | Failed | CancelledRun | TimedOut

  datatype Settlement =
    | RetryWritten(next: Run)
    | RetryRefused
    | Completed(status: Status, output: seq<bv8>, error: Option<PublicError>)

  datatype Answers = Answers(retryAccepted: bool, nextId: string)

  datatype Replay = Safe | IdempotencyKey | Never

  /** What the loop does, in order. */
  datatype Event =
    | Advanced(sequence: uint64)
    | Handshook
    | Dispatched(callId: string, capabilityId: string, callsUsed: nat)
    | Delta(data: seq<bv8>)
    | Usage(units: uint64, cost: uint64, retries: uint32)
    | Final(output: seq<bv8>)
    | Reported(error: PublicError)

  // ---- validators ----

  function Echo(code: Code): PublicError {
    PublicError(code, code.StreamFailed? || code.LeaseLost? || code.EventDeliveryFailed? || code.RunDeadline?)
  }

  function Executor(code: string, retryable: bool): PublicError {
    PublicError(ExecutorReported(code),
      retryable && code !in {"invalid_request", "cancelled", "execution_rejected", "execution_failed",
                             "execution_protocol_error", "budget_exceeded", "protocol_violation",
                             "protocol_version_mismatch"})
  }

  predicate EnvelopeOk(f: Frame, run: Run, expected: uint64) {
    f.intact && f.echoId == run.echoId && f.runId == run.id && f.body.Some? && expected != 0 && f.sequence == expected
  }

  predicate PayloadOk(p: Option<Payload>, maximum: nat) {
    p.Some? && p.value.data != [] && p.value.typed && |p.value.data| <= maximum
  }

  predicate UsageOk(run: Run, units: uint64, cost: uint64, retries: uint32) {
    && 0 < units <= MAX_EXECUTION_UNITS && cost <= MAX_COST && retries <= MAX_RETRIES
    && run.usedUnits <= units <= run.maxUnits && run.usedCost <= cost && run.usedRetries <= retries
    && (run.maxCost > 0 ==> cost <= run.maxCost)
  }

  // ---- what the loop keeps ----

  datatype Progress = Progress(
    run: Run, handshake: bool, usageReported: bool, final: seq<bv8>, failure: Option<PublicError>,
    expected: uint64, seen: set<string>, counts: map<string, uint32>, safe: bool, outputBytes: uint64,
    countedUnits: nat, countedCost: nat, countedRetries: nat)

  function Next(sequence: uint64): uint64 {
    if sequence as int == 0xFFFF_FFFF_FFFF_FFFF then 0 else sequence + 1
  }

  function Start(run: Run): Progress {
    Progress(run, false, false, [], None, Next(run.lastSequence), {}, map[], true, 0, 0, 0, 0)
  }

  function Used(counts: map<string, uint32>, capability: string): uint32 {
    if capability in counts then counts[capability] else 0
  }

  /** The payload and order checks on a frame whose envelope is good; None means accepted. */
  function CheckBody(p: Progress, body: Body): Option<Code> {
    match body
    case RunAccepted(version) => if !p.handshake && version == VERSION then None else Some(ProtocolViolation)
    case CapabilityCall(callId, _, valid) =>
      if !p.handshake || !valid then Some(ProtocolViolation)
      else if |p.seen| >= p.run.maxCapabilityCalls as int then Some(BudgetExceeded)
      else if callId in p.seen then Some(ProtocolViolation)
      else None
    case OutputDelta(payload) =>
      if p.handshake && PayloadOk(payload, MAX_DELTA_BYTES) then None else Some(ProtocolViolation)
    case FinalResult(payload) =>
      if p.handshake && p.usageReported && PayloadOk(payload, MAX_OUTPUT_BYTES) then None else Some(ProtocolViolation)
    case RunFailure(_, _, valid) => if p.handshake && valid then None else Some(ProtocolViolation)
    case ResourceUsage(units, cost, retries) =>
      if p.handshake && UsageOk(p.run, units, cost, retries) then None else Some(ProtocolViolation)
    case KernelBody => Some(ProtocolViolation)
  }

  // ---- reading the log ----

  ghost function Sequences(log: seq<Event>): seq<uint64> {
    if log == [] then []
    else
      var e := log[|log| - 1];
      Sequences(log[..|log| - 1]) + (if e.Advanced? then [e.sequence] else [])
  }

  ghost function Calls(log: seq<Event>): seq<string> {
    if log == [] then []
    else
      var e := log[|log| - 1];
      Calls(log[..|log| - 1]) + (if e.Dispatched? then [e.callId] else [])
  }

  ghost function CallsOf(log: seq<Event>, capability: string): nat {
    if log == [] then 0
    else
      var e := log[|log| - 1];
      CallsOf(log[..|log| - 1], capability) + (if e.Dispatched? && e.capabilityId == capability then 1 else 0)
  }

  ghost function DeltaBytes(log: seq<Event>): nat {
    if log == [] then 0
    else
      var e := log[|log| - 1];
      DeltaBytes(log[..|log| - 1]) + (if e.Delta? then |e.data| else 0)
  }

  ghost predicate Replayable(registry: map<string, Replay>, log: seq<Event>) {
    forall i :: 0 <= i < |log| && log[i].Dispatched? && log[i].capabilityId in registry ==>
      registry[log[i].capabilityId] == Safe
  }

  ghost predicate HandshookBefore(log: seq<Event>, n: nat) {
    exists i :: 0 <= i < n <= |log| && log[i].Handshook?
  }

  ghost predicate UsageBefore(log: seq<Event>, n: nat) {
    exists i :: 0 <= i < n <= |log| && log[i].Usage?
  }

  // ---- the guarantees ----

  /** The k-th accepted frame carries the k-th number after the last one persisted, without wrapping. */
  ghost predicate Consecutive(run: Run, log: seq<Event>) {
    forall k :: 0 <= k < |Sequences(log)| ==> Sequences(log)[k] as int == run.lastSequence as int + 1 + k
  }

  /** Every effect comes right after its frame's sequence number was persisted. */
  ghost predicate PersistedFirst(log: seq<Event>) {
    forall i :: 0 <= i < |log| && !log[i].Advanced? ==> i > 0 && log[i - 1].Advanced?
  }

  ghost predicate HandshakeFirst(log: seq<Event>) {
    forall i :: 0 <= i < |log| && !log[i].Advanced? && !log[i].Handshook? ==> HandshookBefore(log, i)
  }

  ghost predicate OneHandshake(log: seq<Event>) {
    forall i, j :: 0 <= i < j < |log| ==> !(log[i].Handshook? && log[j].Handshook?)
  }

  ghost predicate CallsWithinBudget(run: Run, log: seq<Event>) {
    && Distinct(Calls(log)) && |Calls(log)| <= run.maxCapabilityCalls as int
    && forall i :: 0 <= i < |log| && log[i].Dispatched? ==> log[i].callsUsed == CallsOf(log[..i], log[i].capabilityId)
  }

  ghost predicate UsageWithinBudget(run: Run, log: seq<Event>) {
    forall i :: 0 <= i < |log| && log[i].Usage? ==>
      log[i].units <= run.maxUnits && (run.maxCost > 0 ==> log[i].cost <= run.maxCost)
  }

  /** A final result comes after a usage report, is not empty and within the output budget. */
  ghost predicate FinalAfterUsage(run: Run, log: seq<Event>) {
    forall i :: 0 <= i < |log| && log[i].Final? ==>
      && UsageBefore(log, i)
      && log[i].output != [] && |log[i].output| <= run.maxOutputBytes as int
  }

  ghost predicate NothingAfterTerminal(log: seq<Event>) {
    forall i :: 0 <= i < |log| && (log[i].Final? || log[i].Reported?) ==> i == |log| - 1
  }

  ghost predicate Sound(run: Run, log: seq<Event>) {
    && Consecutive(run, log) && PersistedFirst(log) && HandshakeFirst(log) && OneHandshake(log)
    && CallsWithinBudget(run, log) && DeltaBytes(log) <= run.maxOutputBytes as int
    && UsageWithinBudget(run, log) && FinalAfterUsage(run, log) && NothingAfterTerminal(log)
  }

  // ---- what the frames ask for ----

  ghost function Effect(log: seq<Event>, body: Body): seq<Event> {
    match body
    case RunAccepted(_) => [Handshook]
    case CapabilityCall(callId, capability, _) => [Dispatched(callId, capability, CallsOf(log, capability))]
    case OutputDelta(payload) => if payload.Some? then [Delta(payload.value.data)] else []
    case FinalResult(payload) => if payload.Some? then [Final(payload.value.data)] else []
    case RunFailure(code, retryable, _) => [Reported(Executor(code, retryable))]
    case ResourceUsage(units, cost, retries) => [Usage(units, cost, retries)]
    case KernelBody => []
  }

  ghost function Contribution(log: seq<Event>, t: Turn): seq<Event> {
    if t.received.Got? && t.received.frame.body.Some?
    then [Advanced(t.received.frame.sequence)] + Effect(log, t.received.frame.body.value)
    else []
  }

  /** The log that results when every frame of the script is accepted. */
  ghost function LogOf(script: seq<Turn>): seq<Event> {
    if script == [] then []
    else
      var log := LogOf(script[..|script| - 1]);
      log + Contribution(log, script[|script| - 1])
  }

  // ---- what each turn has to do, stated on the log alone ----

  ghost function LastUsage(log: seq<Event>): Option<Event> {
    if log == [] then None
    else if log[|log| - 1].Usage? then Some(log[|log| - 1])
    else LastUsage(log[..|log| - 1])
  }

  /** The cumulative usage is that of the last report, or what the run came with. */
  ghost predicate UsageIs(run: Run, log: seq<Event>, units: uint64, cost: uint64, retries: uint32) {
    match LastUsage(log)
    case Some(Usage(u, c, r)) => units == u && cost == c && retries == r
    case _ => units == run.usedUnits && cost == run.usedCost && retries == run.usedRetries
  }

  ghost predicate Ended(log: seq<Event>) {
    log != [] && (log[|log| - 1].Final? || log[|log| - 1].Reported?)
  }

  /** The frame belongs to this run. */
  ghost predicate Own(run: Run, f: Frame) {
    f.intact && f.echoId == run.echoId && f.runId == run.id
  }

  /** The frame is this run's own and the next one in number, and no terminal frame came before. */
  ghost predicate Due(run: Run, log: seq<Event>, f: Frame) {
    && !Ended(log) && Own(run, f) && f.body.Some?
    && f.sequence as int == run.lastSequence as int + |Sequences(log)| + 1
  }

  ghost predicate GoodPayload(p: Option<Payload>, maximum: int) {
    p.Some? && p.value.typed && 0 < |p.value.data| <= maximum
  }

  /** The body is well-formed, comes in order and keeps the budgets that are checked before it is persisted. */
  ghost predicate BodyInOrder(run: Run, log: seq<Event>, body: Body) {
    && !body.KernelBody?
    && (body.RunAccepted? <==> !HandshookBefore(log, |log|))
    && match body
       case RunAccepted(version) => version == "4.0"
       case CapabilityCall(callId, _, valid) =>
         valid && callId !in Calls(log) && |Calls(log)| < run.maxCapabilityCalls as int
       case OutputDelta(payload) => GoodPayload(payload, 16 * 1024)
       case FinalResult(payload) => UsageBefore(log, |log|) && GoodPayload(payload, 256 * 1024)
       case RunFailure(_, _, valid) => valid
       case ResourceUsage(units, cost, retries) =>
         && 0 < units <= MAX_EXECUTION_UNITS && cost <= MAX_COST && retries <= MAX_RETRIES
         && units <= run.maxUnits && (run.maxCost > 0 ==> cost <= run.maxCost)
         && forall u, c, r :: UsageIs(run, log, u, c, r) ==> u <= units && c <= cost && r <= retries
       case KernelBody => false
  }

  ghost predicate Acceptable(run: Run, log: seq<Event>, f: Frame) {
    Due(run, log, f) && BodyInOrder(run, log, f.body.value)
  }

  /** A good call for which the run has no calls left. */
  ghost predicate OutOfCalls(run: Run, log: seq<Event>, f: Frame) {
    && Due(run, log, f) && f.body.value.CapabilityCall? && f.body.value.valid && HandshookBefore(log, |log|)
    && |Calls(log)| >= run.maxCapabilityCalls as int
  }

  /** The executor's codes that are never retried, whatever it says. */
  ghost predicate NeverRetried(code: string) {
    || code == "invalid_request" || code == "cancelled" || code == "execution_rejected" || code == "execution_failed"
    || code == "execution_protocol_error" || code == "budget_exceeded" || code == "protocol_violation"
    || code == "protocol_version_mismatch"
  }

  /** The next attempt: a new number and fresh budgets, everything else as it was. */
  ghost predicate FreshAttempt(run: Run, next: Run, id: string) {
    && next.id == id && next.echoId == run.echoId && next.attempt as int == run.attempt as int + 1
    && next.maxOutputBytes == run.maxOutputBytes && next.maxCapabilityCalls == run.maxCapabilityCalls
    && next.maxUnits == run.maxUnits && next.maxCost == run.maxCost
    && next.usedUnits == 0 && next.usedCost == 0 && next.usedRetries == 0 && next.lastSequence == 0
  }

  ghost predicate FailsFinally(settled: seq<Settlement>, code: Code, retryable: bool) {
    settled == [Completed(Failed, [], Some(PublicError(code, retryable)))]
  }

  /**
   What a failure with this error writes: a retry exactly if the error may be retried, all that was
   dispatched is safe to replay and attempts remain; the failed completion otherwise, also after a
   retry that the store refuses.
   */
  ghost predicate FailsWith(maxAttempts: uint32, run: Run, registry: map<string, Replay>, log: seq<Event>,
                            e: PublicError, answers: Answers, settled: seq<Settlement>) {
    if !(e.retryable && Replayable(registry, log) && run.attempt < maxAttempts)
    then settled == [Completed(Failed, [], Some(e))]
    else if !answers.retryAccepted then settled == [RetryRefused, Completed(Failed, [], Some(e))]
    else |settled| == 1 && settled[0].RetryWritten? && FreshAttempt(run, settled[0].next, answers.nextId)
  }

  /** Cancellation and deadline settle the run as such, whatever else failed. */
  ghost predicate Interrupted(context: Context, settled: seq<Settlement>) {
    match context
    case Cancelled => settled == [Completed(CancelledRun, [], Some(PublicError(RunCancelled, false)))]
    case DeadlineExceeded => settled == [Completed(TimedOut, [], Some(PublicError(RunDeadline, true)))]
    case Live => false
  }

  /** The end of the stream, or its failure. */
  ghost predicate EndSettles(maxAttempts: uint32, run: Run, registry: map<string, Replay>, log: seq<Event>, t: Turn,
                             answers: Answers, settled: seq<Settlement>) {
    if t.atReceive == Cancelled && t.leaseLost
    then FailsWith(maxAttempts, run, registry, log, PublicError(LeaseLost, true), answers, settled)
    else if t.atReceive != Live then Interrupted(t.atReceive, settled)
    else if t.received.EndOfStream? && log != [] && log[|log| - 1].Final? then
      if t.emitted then settled == [Completed(Succeeded, log[|log| - 1].output, None)]
      else FailsWith(maxAttempts, run, registry, log, PublicError(EventDeliveryFailed, true), answers, settled)
    else if t.received.EndOfStream? && log != [] && log[|log| - 1].Reported?
    then FailsWith(maxAttempts, run, registry, log, log[|log| - 1].error, answers, settled)
    else FailsWith(maxAttempts, run, registry, log, PublicError(StreamFailed, true), answers, settled)
  }

  /** After a call was dispatched; the log has it already. */
  ghost predicate CallSettles(maxAttempts: uint32, run: Run, registry: map<string, Replay>, log: seq<Event>, t: Turn,
                              answers: Answers, settled: seq<Settlement>) {
    if t.atInvoke != Live then Interrupted(t.atInvoke, settled)
    else if !t.resultValid then FailsFinally(settled, ProtocolViolation, false)
    else if !t.sent then
      if t.atSend == Cancelled then Interrupted(Cancelled, settled)
      else FailsWith(maxAttempts, run, registry, log, PublicError(StreamFailed, true), answers, settled)
    else EmitSettles(maxAttempts, run, registry, log, t, answers, settled)
  }

  /** After an event was handed to the event log. */
  ghost predicate EmitSettles(maxAttempts: uint32, run: Run, registry: map<string, Replay>, log: seq<Event>, t: Turn,
                              answers: Answers, settled: seq<Settlement>) {
    if t.emitted then settled == []
    else if t.atEmit == Cancelled then Interrupted(Cancelled, settled)
    else FailsWith(maxAttempts, run, registry, log, PublicError(EventDeliveryFailed, true), answers, settled)
  }

  /** A frame whose number has been persisted. */
  ghost predicate BodySettles(maxAttempts: uint32, run: Run, registry: map<string, Replay>, log: seq<Event>, t: Turn,
                              body: Body, answers: Answers, log': seq<Event>, settled: seq<Settlement>) {
    match body
    case RunAccepted(_) => log' == log + [Handshook] && settled == []
    case CapabilityCall(callId, capability, _) =>
      && log' == log + [Dispatched(callId, capability, CallsOf(log, capability))]
      && CallSettles(maxAttempts, run, registry, log', t, answers, settled)
    case OutputDelta(Some(payload)) =>
      if DeltaBytes(log) + |payload.data| > run.maxOutputBytes as int
      then log' == log && FailsFinally(settled, BudgetExceeded, false)
      else log' == log + [Delta(payload.data)] && EmitSettles(maxAttempts, run, registry, log', t, answers, settled)
    case FinalResult(Some(payload)) =>
      if |payload.data| > run.maxOutputBytes as int then log' == log && FailsFinally(settled, BudgetExceeded, false)
      else log' == log + [Final(payload.data)] && settled == []
    case RunFailure(code, retryable, _) =>
      && log' == log + [Reported(PublicError(ExecutorReported(code), retryable && !NeverRetried(code)))]
      && settled == []
    case ResourceUsage(units, cost, retries) => log' == log + [Usage(units, cost, retries)] && settled == []
    case _ => false
  }

  ghost predicate FrameSettles(maxAttempts: uint32, run: Run, registry: map<string, Replay>, log: seq<Event>, t: Turn,
                               f: Frame, answers: Answers, log': seq<Event>, settled: seq<Settlement>) {
    if OutOfCalls(run, log, f) then log' == log && FailsFinally(settled, BudgetExceeded, false)
    else if !Acceptable(run, log, f) then log' == log && FailsFinally(settled, ProtocolViolation, false)
    else if !t.advanced then
      log' == log && (if t.atAdvance != Live then Interrupted(t.atAdvance, settled)
                      else FailsFinally(settled, InternalError, false))
    else BodySettles(maxAttempts, run, registry, log + [Advanced(f.sequence)], t, f.body.value, answers, log', settled)
  }

  /** One turn, from a log to the next one; no settlement means that the loop goes on. */
  ghost predicate TurnSettles(maxAttempts: uint32, run: Run, registry: map<string, Replay>, log: seq<Event>, t: Turn,
                              answers: Answers, log': seq<Event>, settled: seq<Settlement>) {
    match t.received
    case Got(f) => FrameSettles(maxAttempts, run, registry, log, t, f, answers, log', settled)
    case _ => log' == log && EndSettles(maxAttempts, run, registry, log, t, answers, settled)
  }

  // ---- the loop invariant ----

  ghost predicate RunInv(run: Run, p: Progress, log: seq<Event>) {
    && p.run == run.(usedUnits := p.run.usedUnits, usedCost := p.run.usedCost, usedRetries := p.run.usedRetries,
                     lastSequence := p.run.lastSequence)
    && p.run.lastSequence as int == run.lastSequence as int + |Sequences(log)|
    && p.expected == Next(p.run.lastSequence)
    && run.usedUnits as int + p.countedUnits == p.run.usedUnits as int
    && run.usedCost as int + p.countedCost == p.run.usedCost as int
    && run.usedRetries as int + p.countedRetries == p.run.usedRetries as int
    && Consecutive(run, log)
    && UsageWithinBudget(run, log)
  }

  ghost predicate CallsInv(run: Run, p: Progress, log: seq<Event>) {
    && CallsWithinBudget(run, log)
    && |p.seen| == |Calls(log)| && (forall c :: c in p.seen <==> c in Calls(log))
    && (forall c :: Used(p.counts, c) as int == CallsOf(log, c) <= |Calls(log)|)
  }

  ghost predicate OrderInv(run: Run, p: Progress, log: seq<Event>) {
    && PersistedFirst(log) && HandshakeFirst(log) && OneHandshake(log) && FinalAfterUsage(run, log)
    && NothingAfterTerminal(log)
    && (p.handshake <==> HandshookBefore(log, |log|))
    && (p.usageReported <==> UsageBefore(log, |log|))
    && (p.final == if log != [] && log[|log| - 1].Final? then log[|log| - 1].output else [])
    && (p.failure == if log != [] && log[|log| - 1].Reported? then Some(log[|log| - 1].error) else None)
  }

  ghost predicate OutputInv(run: Run, registry: map<string, Replay>, p: Progress, log: seq<Event>) {
    && DeltaBytes(log) == p.outputBytes as int <= run.maxOutputBytes as int
    && (p.safe <==> Replayable(registry, log))
  }

  ghost predicate Inv(run: Run, registry: map<string, Replay>, p: Progress, log: seq<Event>) {
    RunInv(run, p, log) && CallsInv(run, p, log) && OrderInv(run, p, log) && OutputInv(run, registry, p, log)
  }

  ghost predicate UsageInv(run: Run, p: Progress, log: seq<Event>) {
    UsageIs(run, log, p.run.usedUnits, p.run.usedCost, p.run.usedRetries)
  }

  /** No terminal frame has been accepted. */
  predicate Open(p: Progress) {
    p.final == [] && p.failure.None?
  }

  lemma InvSound(run: Run, registry: map<string, Replay>, p: Progress, log: seq<Event>)
    requires Inv(run, registry, p, log)
    ensures Sound(run, log)
  {
  }

  lemma InvStart(run: Run, registry: map<string, Replay>)
    ensures Inv(run, registry, Start(run), []) && UsageInv(run, Start(run), [])
  {
  }

  lemma Snoc(log: seq<Event>, e: Event)
    ensures Sequences(log + [e]) == Sequences(log) + if e.Advanced? then [e.sequence] else []
    ensures Calls(log + [e]) == Calls(log) + if e.Dispatched? then [e.callId] else []
    ensures forall c :: CallsOf(log + [e], c) == CallsOf(log, c) + if e.Dispatched? && e.capabilityId == c then 1 else 0
    ensures DeltaBytes(log + [e]) == DeltaBytes(log) + if e.Delta? then |e.data| else 0
  {
    assert (log + [e])[..|log|] == log;
  }

  lemma LastUsageSnoc(log: seq<Event>, e: Event)
    ensures LastUsage(log + [e]) == if e.Usage? then Some(e) else LastUsage(log)
  {
    assert (log + [e])[..|log|] == log;
  }

  /** Persisting the number of the expected frame. */
  function AdvanceTo(p: Progress, sequence: uint64): Progress {
    p.(run := p.run.(lastSequence := sequence), expected := Next(sequence))
  }

  lemma AdvanceKeeps(run: Run, registry: map<string, Replay>, p: Progress, log: seq<Event>)
    requires Inv(run, registry, p, log) && Open(p) && p.expected != 0
    ensures Inv(run, registry, AdvanceTo(p, p.expected), log + [Advanced(p.expected)])
  {
    Snoc(log, Advanced(p.expected));
    AdvancedCalls(run, p, log);
    AdvancedOrder(run, p, log);
  }

  lemma AdvancedCalls(run: Run, p: Progress, log: seq<Event>)
    requires CallsInv(run, p, log)
    ensures CallsInv(run, AdvanceTo(p, p.expected), log + [Advanced(p.expected)])
  {
    EffectCalls(run, p, AdvanceTo(p, p.expected), log, Advanced(p.expected));
  }

  /** An event that is not a call leaves the call bookkeeping alone. */
  lemma EffectCalls(run: Run, p: Progress, p': Progress, log: seq<Event>, e: Event)
    requires CallsInv(run, p, log) && !e.Dispatched? && p'.seen == p.seen && p'.counts == p.counts
    ensures CallsInv(run, p', log + [e])
  {
    CallsBefore(run, log, e);
    Snoc(log, e);
    hide CallsOf, Calls;
  }

  lemma AdvancedOrder(run: Run, p: Progress, log: seq<Event>)
    requires OrderInv(run, p, log) && Open(p)
    ensures OrderInv(run, AdvanceTo(p, p.expected), log + [Advanced(p.expected)])
  {
    EffectOrder(run, p, AdvanceTo(p, p.expected), log, Advanced(p.expected));
  }

  lemma EffectOrder(run: Run, p: Progress, p': Progress, log: seq<Event>, e: Event)
    requires OrderInv(run, p, log) && Open(p)
    requires e.Advanced? || (log != [] && log[|log| - 1].Advanced?)
    requires e.Handshook? ==> !p.handshake
    requires e.Advanced? || e.Handshook? || p.handshake
    requires e.Final? ==> p.usageReported && e.output != [] && |e.output| <= run.maxOutputBytes as int
    requires p'.handshake == (p.handshake || e.Handshook?) && p'.usageReported == (p.usageReported || e.Usage?)
    requires p'.final == (if e.Final? then e.output else [])
    requires p'.failure == (if e.Reported? then Some(e.error) else None)
    ensures OrderInv(run, p', log + [e])
  {
    var log' := log + [e];
    forall n: nat | n <= |log| ensures HandshookBefore(log', n) <==> HandshookBefore(log, n) {
      HappenedBefore(log, e, n);
    }
    forall n: nat | n <= |log| ensures UsageBefore(log', n) <==> UsageBefore(log, n) {
      HappenedBefore(log, e, n);
    }
    assert log'[|log|] == e;
    assert HandshookBefore(log', |log'|) <==> HandshookBefore(log, |log|) || e.Handshook?;
    assert UsageBefore(log', |log'|) <==> UsageBefore(log, |log|) || e.Usage?;
    assert log != [] ==> !log[|log| - 1].Final? && !log[|log| - 1].Reported?;
    assert NothingAfterTerminal(log');
  }

  lemma HappenedBefore(log: seq<Event>, e: Event, n: nat)
    requires n <= |log|
    ensures HandshookBefore(log + [e], n) <==> HandshookBefore(log, n)
    ensures UsageBefore(log + [e], n) <==> UsageBefore(log, n)
  {
    assert forall i :: 0 <= i < n ==> (log + [e])[i] == log[i];
    if HandshookBefore(log, n) {
      var i :| 0 <= i < n && log[i].Handshook?;
      assert (log + [e])[i].Handshook?;
    }
    if UsageBefore(log, n) {
      var i :| 0 <= i < n && log[i].Usage?;
      assert (log + [e])[i].Usage?;
    }
  }

  /** An accepted frame's effect, other than a call, keeps the invariant. */
  lemma EffectKeeps(run: Run, registry: map<string, Replay>, p: Progress, p': Progress, log: seq<Event>, e: Event)
    requires Inv(run, registry, p, log) && Open(p) && log != [] && log[|log| - 1].Advanced?
    requires !e.Advanced? && !e.Dispatched? && (e.Handshook? <==> !p.handshake) && p'.handshake
    requires p'.usageReported == (p.usageReported || e.Usage?)
    requires e.Final? ==> p.usageReported && e.output != [] && |e.output| <= run.maxOutputBytes as int
    requires p'.final == (if e.Final? then e.output else [])
    requires p'.failure == (if e.Reported? then Some(e.error) else None)
    requires p'.seen == p.seen && p'.counts == p.counts && p'.safe == p.safe && p'.expected == p.expected
    requires p'.outputBytes as int == p.outputBytes as int + (if e.Delta? then |e.data| else 0)
             <= run.maxOutputBytes as int
    requires p'.run == p.run && p'.countedUnits == p.countedUnits && p'.countedCost == p.countedCost
    requires p'.countedRetries == p.countedRetries
    requires e.Usage? ==> e.units <= run.maxUnits && (run.maxCost > 0 ==> e.cost <= run.maxCost)
    ensures Inv(run, registry, p', log + [e])
  {
    EffectCalls(run, p, p', log, e);
    EffectOrder(run, p, p', log, e);
    hide CallsInv, OrderInv;
    Snoc(log, e);
    EffectRest(run, registry, p, p', log, e);
  }

  lemma EffectRest(run: Run, registry: map<string, Replay>, p: Progress, p': Progress, log: seq<Event>, e: Event)
    requires RunInv(run, p, log) && OutputInv(run, registry, p, log) && !e.Advanced? && !e.Dispatched?
    requires p'.run == p.run && p'.expected == p.expected && p'.countedUnits == p.countedUnits
    requires p'.countedCost == p.countedCost && p'.countedRetries == p.countedRetries && p'.safe == p.safe
    requires p'.outputBytes as int == p.outputBytes as int + (if e.Delta? then |e.data| else 0)
             <= run.maxOutputBytes as int
    requires e.Usage? ==> e.units <= run.maxUnits && (run.maxCost > 0 ==> e.cost <= run.maxCost)
    ensures RunInv(run, p', log + [e]) && OutputInv(run, registry, p', log + [e])
  {
    Snoc(log, e);
    UsageSnoc(run, log, e);
    ReplayableSnoc(registry, log, e);
    hide Sequences, DeltaBytes, UsageWithinBudget, Replayable;
  }

  lemma UsageSnoc(run: Run, log: seq<Event>, e: Event)
    requires UsageWithinBudget(run, log)
             && (e.Usage? ==> e.units <= run.maxUnits && (run.maxCost > 0 ==> e.cost <= run.maxCost))
    ensures UsageWithinBudget(run, log + [e])
  {
  }

  lemma ReplayableSnoc(registry: map<string, Replay>, log: seq<Event>, e: Event)
    requires !e.Dispatched?
    ensures Replayable(registry, log + [e]) <==> Replayable(registry, log)
  {
    assert forall i :: 0 <= i < |log| ==> (log + [e])[i] == log[i];
  }

  // ---- settling the run ----

  function NextAttempt(run: Run, id: string): Run
    requires run.attempt as int < 0xFFFF_FFFF
  {
    run.(id := id, attempt := run.attempt + 1, lastSequence := 0, usedUnits := 0, usedCost := 0, usedRetries := 0)
  }

  predicate CanRetry(maxAttempts: uint32, run: Run, e: PublicError, safe: bool) {
    e.retryable && safe && run.attempt < maxAttempts
  }

  /** failPublic: what is written to the store, in order. */
  function FailPublic(maxAttempts: uint32, run: Run, e: PublicError, safe: bool, answers: Answers): seq<Settlement> {
    if CanRetry(maxAttempts, run, e, safe) then
      if answers.retryAccepted then [RetryWritten(NextAttempt(run, answers.nextId))]
      else [RetryRefused, Completed(Failed, [], Some(e))]
    else [Completed(Failed, [], Some(e))]
  }

  lemma FailPublicIs(maxAttempts: uint32, run: Run, registry: map<string, Replay>, p: Progress, log: seq<Event>,
                     e: PublicError, answers: Answers)
    requires Inv(run, registry, p, log)
    ensures FailsWith(maxAttempts, run, registry, log, e, answers, FailPublic(maxAttempts, p.run, e, p.safe, answers))
  {
    hide CallsInv, OrderInv, Replayable;
  }

  const CANCELLED := [Completed(CancelledRun, [], Some(Echo(RunCancelled)))]
  const TIMED_OUT := [Completed(TimedOut, [], Some(Echo(RunDeadline)))]

  /** One retry, or one completion, which a refused retry may precede. */
  predicate SettledOnce(settled: seq<Settlement>) {
    || (|settled| == 1 && !settled[0].RetryRefused?)
    || (|settled| == 2 && settled[0].RetryRefused? && settled[1].Completed? && settled[1].status == Failed)
  }

  ghost predicate Settled(maxAttempts: uint32, p: Progress, answers: Answers, settled: seq<Settlement>) {
    && SettledOnce(settled)
    && (settled[0].RetryWritten? ==>
          p.safe && p.run.attempt < maxAttempts && answers.retryAccepted
          && settled[0].next == NextAttempt(p.run, answers.nextId))
  }

  predicate Success(settled: seq<Settlement>) {
    |settled| == 1 && settled[0].Completed? && settled[0].status == Succeeded
  }

  lemma FailSettles(maxAttempts: uint32, p: Progress, e: PublicError, safe: bool, answers: Answers)
    requires safe ==> p.safe
    ensures Settled(maxAttempts, p, answers, FailPublic(maxAttempts, p.run, e, safe, answers))
    ensures !Success(FailPublic(maxAttempts, p.run, e, safe, answers))
    ensures !e.retryable ==> FailPublic(maxAttempts, p.run, e, safe, answers) == [Completed(Failed, [], Some(e))]
  {
  }

  lemma TerminalIs(run: Run, registry: map<string, Replay>, p: Progress, log: seq<Event>)
    requires Inv(run, registry, p, log)
    ensures p.final == if log != [] && log[|log| - 1].Final? then log[|log| - 1].output else []
    ensures log != [] && log[|log| - 1].Final? ==> p.final != []
    ensures p.failure == if log != [] && log[|log| - 1].Reported? then Some(log[|log| - 1].error) else None
    ensures Open(p) <==> !Ended(log)
  {
  }

  /** The stream has ended or failed. */
  method OnStreamEnd(maxAttempts: uint32, ghost run: Run, ghost registry: map<string, Replay>, p: Progress,
                     ghost log: seq<Event>, t: Turn, answers: Answers)
    returns (settled: seq<Settlement>)
    requires !t.received.Got? && Inv(run, registry, p, log)
    ensures EndSettles(maxAttempts, run, registry, log, t, answers, settled)
    ensures Settled(maxAttempts, p, answers, settled)
    ensures Success(settled) <==> t.received.EndOfStream? && t.atReceive == Live && p.final != [] && t.emitted
    ensures Success(settled) ==> settled[0].output == p.final
  {
    TerminalIs(run, registry, p, log);
    FailPublicIs(maxAttempts, run, registry, p, log, Echo(LeaseLost), answers);
    FailPublicIs(maxAttempts, run, registry, p, log, Echo(EventDeliveryFailed), answers);
    FailPublicIs(maxAttempts, run, registry, p, log, Echo(StreamFailed), answers);
    FailSettles(maxAttempts, p, Echo(LeaseLost), p.safe, answers);
    FailSettles(maxAttempts, p, Echo(EventDeliveryFailed), p.safe, answers);
    FailSettles(maxAttempts, p, Echo(StreamFailed), p.safe, answers);
    if p.failure.Some? {
      FailPublicIs(maxAttempts, run, registry, p, log, p.failure.value, answers);
      FailSettles(maxAttempts, p, p.failure.value, p.safe, answers);
    }
    hide Inv, FailsWith, FailPublic;
    match t.atReceive {
      case Cancelled =>
        if t.leaseLost {
          return FailPublic(maxAttempts, p.run, Echo(LeaseLost), p.safe, answers);
        }
        return CANCELLED;
      case DeadlineExceeded => return TIMED_OUT;
      case Live =>
    }
    if t.received.EndOfStream? && p.final != [] {
      if !t.emitted {
        return FailPublic(maxAttempts, p.run, Echo(EventDeliveryFailed), p.safe, answers);
      }
      return [Completed(Succeeded, p.final, None)];
    }
    if t.received.EndOfStream? && p.failure.Some? {
      return FailPublic(maxAttempts, p.run, p.failure.value, p.safe, answers);
    }
    settled := FailPublic(maxAttempts, p.run, Echo(StreamFailed), p.safe, answers);
  }

  /** The checks on the loop's variables decide what the log says of the frame. */
  lemma ChecksAre(run: Run, registry: map<string, Replay>, p: Progress, log: seq<Event>, frame: Frame)
    requires Inv(run, registry, p, log) && UsageInv(run, p, log)
    ensures Open(p) && EnvelopeOk(frame, p.run, p.expected) <==> Due(run, log, frame)
    ensures frame.body.Some? ==> (CheckBody(p, frame.body.value).None? <==> BodyInOrder(run, log, frame.body.value))
    ensures frame.body.Some? ==>
              (CheckBody(p, frame.body.value) == Some(BudgetExceeded) <==>
                 frame.body.value.CapabilityCall? && frame.body.value.valid && HandshookBefore(log, |log|)
                 && |Calls(log)| >= run.maxCapabilityCalls as int)
  {
    TerminalIs(run, registry, p, log);
    BodyChecksAre(run, registry, p, log, frame);
    hide CallsInv, OrderInv, OutputInv, CheckBody, BodyInOrder;
  }

  lemma BodyChecksAre(run: Run, registry: map<string, Replay>, p: Progress, log: seq<Event>, frame: Frame)
    requires Inv(run, registry, p, log) && UsageInv(run, p, log)
    ensures frame.body.Some? ==> (CheckBody(p, frame.body.value).None? <==> BodyInOrder(run, log, frame.body.value))
    ensures frame.body.Some? ==>
              (CheckBody(p, frame.body.value) == Some(BudgetExceeded) <==>
                 frame.body.value.CapabilityCall? && frame.body.value.valid && HandshookBefore(log, |log|)
                 && |Calls(log)| >= run.maxCapabilityCalls as int)
  {
    SameLimits(run, registry, p, log);
    if frame.body.Some? && frame.body.value.ResourceUsage? {
      var ResourceUsage(units, cost, retries) := frame.body.value;
      UsageOkIs(run, registry, p, log, units, cost, retries);
    }
    hide RunInv, OutputInv, Sequences, UsageOk, UsageInv, UsageIs;
  }

  lemma UsageOkIs(run: Run, registry: map<string, Replay>, p: Progress, log: seq<Event>, units: uint64, cost: uint64,
                  retries: uint32)
    requires Inv(run, registry, p, log) && UsageInv(run, p, log)
    ensures UsageOk(p.run, units, cost, retries) <==>
              && 0 < units <= MAX_EXECUTION_UNITS && cost <= MAX_COST && retries <= MAX_RETRIES
              && units <= run.maxUnits && (run.maxCost > 0 ==> cost <= run.maxCost)
              && forall u, c, r :: UsageIs(run, log, u, c, r) ==> u <= units && c <= cost && r <= retries
  {
    hide CallsInv, OrderInv, OutputInv;
  }

  /** The checks a frame has to pass before the store is asked to accept its number. */
  method Screen(ghost run: Run, ghost registry: map<string, Replay>, p: Progress, ghost log: seq<Event>, frame: Frame)
    returns (rejected: Option<Code>)
    requires Inv(run, registry, p, log) && UsageInv(run, p, log)
    ensures rejected.None? <==> Acceptable(run, log, frame)
    ensures rejected == Some(BudgetExceeded) <==> OutOfCalls(run, log, frame)
    ensures rejected.Some? ==> rejected.value == ProtocolViolation || rejected.value == BudgetExceeded
    ensures rejected.None? ==> Open(p) && frame.sequence == p.expected != 0 && frame.body.Some?
    ensures rejected.None? ==> CheckBody(p, frame.body.value).None?
  {
    ChecksAre(run, registry, p, log, frame);
    hide Inv, UsageInv, BodyInOrder, Due;
    if p.final != [] || p.failure.Some? {
      return Some(ProtocolViolation);
    }
    if !EnvelopeOk(frame, p.run, p.expected) {
      return Some(ProtocolViolation);
    }
    rejected := CheckBody(p, frame.body.value);
  }

  method OnOutputDelta(maxAttempts: uint32, run: Run, registry: map<string, Replay>, p: Progress, log: seq<Event>,
                       data: seq<bv8>, t: Turn, answers: Answers)
    returns (p': Progress, log': seq<Event>, settled: seq<Settlement>)
    requires Inv(run, registry, p, log) && Open(p) && p.handshake && log != [] && log[|log| - 1].Advanced?
    requires |data| <= MAX_DELTA_BYTES
    ensures Inv(run, registry, p', log') && p'.run == p.run
    ensures if DeltaBytes(log) + |data| > run.maxOutputBytes as int
            then log' == log && FailsFinally(settled, BudgetExceeded, false)
            else log' == log + [Delta(data)] && EmitSettles(maxAttempts, run, registry, log', t, answers, settled)
    ensures settled != [] ==> Settled(maxAttempts, p', answers, settled) && !Success(settled)
  {
    OutputBound(run, registry, p, log);
    SameLimits(run, registry, p, log);
    hide FailsWith, FailPublic;
    p', log', settled := p, log, [];
    if |data| as uint64 > p.run.maxOutputBytes - p.outputBytes {
      FailSettles(maxAttempts, p, Echo(BudgetExceeded), false, answers);
      settled := FailPublic(maxAttempts, p.run, Echo(BudgetExceeded), false, answers);
      return;
    }
    p' := p.(outputBytes := p.outputBytes + |data| as uint64);
    log' := log + [Delta(data)];
    EffectKeeps(run, registry, p, p', log, Delta(data));
    hide Inv;
    if !t.emitted {
      if t.atEmit == Cancelled {
        settled := CANCELLED;
      } else {
        FailSettles(maxAttempts, p', Echo(EventDeliveryFailed), p'.safe, answers);
        FailPublicIs(maxAttempts, run, registry, p', log', Echo(EventDeliveryFailed), answers);
        settled := FailPublic(maxAttempts, p'.run, Echo(EventDeliveryFailed), p'.safe, answers);
      }
    }
  }

  lemma CallKeeps(run: Run, registry: map<string, Replay>, p: Progress, p': Progress, log: seq<Event>,
                  callId: string, capability: string)
    requires Inv(run, registry, p, log) && Open(p) && p.handshake && log != [] && log[|log| - 1].Advanced?
    requires |p.seen| < run.maxCapabilityCalls as int && callId !in p.seen
    requires Used(p.counts, capability) as int < 0xFFFF_FFFF
    requires p' == p.(seen := p.seen + {callId}, counts := p.counts[capability := Used(p.counts, capability) + 1],
                      safe := p.safe && (capability in registry ==> registry[capability] == Safe))
    ensures Inv(run, registry, p', log + [Dispatched(callId, capability, Used(p.counts, capability) as int)])
  {
    hide RunInv, CallsInv, OrderInv, OutputInv;
    var e := Dispatched(callId, capability, Used(p.counts, capability) as int);
    EffectOrder(run, p, p', log, e);
    CallCalls(run, p, p', log, callId, capability);
    CallRest(run, registry, p, p', log, e);
  }

  lemma SameLimits(run: Run, registry: map<string, Replay>, p: Progress, log: seq<Event>)
    requires Inv(run, registry, p, log)
    ensures p.run.maxCapabilityCalls == run.maxCapabilityCalls && p.run.maxOutputBytes == run.maxOutputBytes
    ensures p.run.maxUnits == run.maxUnits && p.run.maxCost == run.maxCost
  {
  }

  lemma CallRest(run: Run, registry: map<string, Replay>, p: Progress, p': Progress, log: seq<Event>, e: Event)
    requires RunInv(run, p, log) && OutputInv(run, registry, p, log) && e.Dispatched?
    requires p' == p.(seen := p'.seen, counts := p'.counts, safe := p'.safe)
    requires p'.safe <==> p.safe && (e.capabilityId in registry ==> registry[e.capabilityId] == Safe)
    ensures RunInv(run, p', log + [e]) && OutputInv(run, registry, p', log + [e])
  {
    Snoc(log, e);
    hide Sequences, DeltaBytes, Calls, CallsOf;
    assert (log + [e])[|log|] == e;
    assert forall i :: 0 <= i < |log| ==> (log + [e])[i] == log[i];
  }

  lemma UsedBound(run: Run, p: Progress, log: seq<Event>, capability: string)
    requires CallsInv(run, p, log) && |p.seen| < run.maxCapabilityCalls as int
    ensures Used(p.counts, capability) as int == CallsOf(log, capability) < 0xFFFF_FFFF
  {
  }

  /** The calls before each position are the same in a longer log. */
  lemma CallsBefore(run: Run, log: seq<Event>, e: Event)
    requires CallsWithinBudget(run, log) && (e.Dispatched? ==> e.callsUsed == CallsOf(log, e.capabilityId))
    ensures forall i :: 0 <= i < |log + [e]| && (log + [e])[i].Dispatched? ==>
              (log + [e])[i].callsUsed == CallsOf((log + [e])[..i], (log + [e])[i].capabilityId)
  {
    var log' := log + [e];
    forall i | 0 <= i < |log'| && log'[i].Dispatched?
      ensures log'[i].callsUsed == CallsOf(log'[..i], log'[i].capabilityId)
    {
      assert log'[..i] == log[..i];
      assert log[..|log|] == log;
    }
  }

  lemma DistinctSnoc(s: seq<string>, x: string)
    requires Distinct(s) && x !in s
    ensures Distinct(s + [x])
  {
  }

  lemma CallCounts(log: seq<Event>, counts: map<string, uint32>, e: Event)
    requires e.Dispatched? && Used(counts, e.capabilityId) as int < 0xFFFF_FFFF
    requires forall c :: Used(counts, c) as int == CallsOf(log, c) <= |Calls(log)|
    ensures forall c :: Used(counts[e.capabilityId := Used(counts, e.capabilityId) + 1], c) as int
                        == CallsOf(log + [e], c) <= |Calls(log + [e])|
  {
    Snoc(log, e);
    hide CallsOf, Calls;
  }

  lemma CallCalls(run: Run, p: Progress, p': Progress, log: seq<Event>, callId: string, capability: string)
    requires CallsInv(run, p, log) && |p.seen| < run.maxCapabilityCalls as int && callId !in p.seen
    requires Used(p.counts, capability) as int < 0xFFFF_FFFF
    requires p'.seen == p.seen + {callId} && p'.counts == p.counts[capability := Used(p.counts, capability) + 1]
    ensures CallsInv(run, p', log + [Dispatched(callId, capability, Used(p.counts, capability) as int)])
  {
    var e := Dispatched(callId, capability, Used(p.counts, capability) as int);
    CallsBefore(run, log, e);
    CallCounts(log, p.counts, e);
    DistinctSnoc(Calls(log), callId);
    Snoc(log, e);
    hide CallsOf, Calls, Used, Distinct;
  }

  method OnCapabilityCall(maxAttempts: uint32, run: Run, registry: map<string, Replay>, p: Progress, log: seq<Event>,
                          callId: string, capability: string, t: Turn, answers: Answers)
    returns (p': Progress, log': seq<Event>, settled: seq<Settlement>)
    requires Inv(run, registry, p, log) && Open(p) && p.handshake && log != [] && log[|log| - 1].Advanced?
    requires |p.seen| < run.maxCapabilityCalls as int && callId !in p.seen
    ensures Inv(run, registry, p', log') && p'.run == p.run
    ensures log' == log + [Dispatched(callId, capability, CallsOf(log, capability))]
    ensures CallSettles(maxAttempts, run, registry, log', t, answers, settled)
    ensures settled != [] ==> Settled(maxAttempts, p', answers, settled) && !Success(settled)
  {
    hide RunInv, CallsInv, OrderInv, OutputInv, FailPublic, FailsWith;
    UsedBound(run, p, log, capability);
    var used := Used(p.counts, capability);
    p' := p.(seen := p.seen + {callId});
    if capability in registry && registry[capability] != Safe {
      p' := p'.(safe := false);
    }
    log' := log + [Dispatched(callId, capability, used as int)];
    p' := p'.(counts := p.counts[capability := used + 1]);
    CallKeeps(run, registry, p, p', log, callId, capability);
    settled := CallOutcome(maxAttempts, run, registry, p', log', t, answers);
  }

  /** What happens after the dispatch: the result is checked, returned and recorded. */
  method CallOutcome(maxAttempts: uint32, ghost run: Run, ghost registry: map<string, Replay>, p: Progress,
                     ghost log: seq<Event>, t: Turn, answers: Answers)
    returns (settled: seq<Settlement>)
    requires Inv(run, registry, p, log)
    ensures CallSettles(maxAttempts, run, registry, log, t, answers, settled)
    ensures settled != [] ==> Settled(maxAttempts, p, answers, settled) && !Success(settled)
  {
    FailSettles(maxAttempts, p, Echo(ProtocolViolation), p.safe, answers);
    FailSettles(maxAttempts, p, Echo(StreamFailed), p.safe, answers);
    FailSettles(maxAttempts, p, Echo(EventDeliveryFailed), p.safe, answers);
    FailPublicIs(maxAttempts, run, registry, p, log, Echo(StreamFailed), answers);
    FailPublicIs(maxAttempts, run, registry, p, log, Echo(EventDeliveryFailed), answers);
    hide Inv, FailPublic, FailsWith;
    settled := [];
    if t.atInvoke == Cancelled {
      return CANCELLED;
    }
    if t.atInvoke == DeadlineExceeded {
      return TIMED_OUT;
    }
    if !t.resultValid {
      return FailPublic(maxAttempts, p.run, Echo(ProtocolViolation), p.safe, answers);
    }
    if !t.sent {
      return if t.atSend == Cancelled then CANCELLED
             else FailPublic(maxAttempts, p.run, Echo(StreamFailed), p.safe, answers);
    }
    if !t.emitted {
      return if t.atEmit == Cancelled then CANCELLED
             else FailPublic(maxAttempts, p.run, Echo(EventDeliveryFailed), p.safe, answers);
    }
  }

  /** Recording the cumulative usage that was persisted with the frame; the differences go to the metrics. */
  method RecordUsage(p: Progress, units: uint64, cost: uint64, retries: uint32) returns (p': Progress)
    requires UsageOk(p.run, units, cost, retries)
    ensures p' == p.(run := p.run.(usedUnits := units, usedCost := cost, usedRetries := retries),
                     countedUnits := p'.countedUnits, countedCost := p'.countedCost,
                     countedRetries := p'.countedRetries)
    ensures p'.countedUnits - p.countedUnits == units as int - p.run.usedUnits as int
    ensures p'.countedCost - p.countedCost == cost as int - p.run.usedCost as int
    ensures p'.countedRetries - p.countedRetries == retries as int - p.run.usedRetries as int
  {
    var unitDelta, costDelta, retryDelta := units - p.run.usedUnits, cost - p.run.usedCost, retries - p.run.usedRetries;
    p' := p.(run := p.run.(usedUnits := units, usedCost := cost, usedRetries := retries),
             countedUnits := p.countedUnits + unitDelta as nat, countedCost := p.countedCost + costDelta as nat,
             countedRetries := p.countedRetries + retryDelta as nat);
  }

  lemma RecordKeeps(run: Run, registry: map<string, Replay>, p: Progress, p': Progress, log: seq<Event>,
                    units: uint64, cost: uint64, retries: uint32)
    requires Inv(run, registry, p, log)
    requires p' == p.(run := p.run.(usedUnits := units, usedCost := cost, usedRetries := retries),
                      countedUnits := p'.countedUnits, countedCost := p'.countedCost,
                      countedRetries := p'.countedRetries)
    requires p'.countedUnits - p.countedUnits == units as int - p.run.usedUnits as int
    requires p'.countedCost - p.countedCost == cost as int - p.run.usedCost as int
    requires p'.countedRetries - p.countedRetries == retries as int - p.run.usedRetries as int
    ensures Inv(run, registry, p', log)
  {
  }

  /** The branches for the frames that only change the loop's own variables. */
  method OnSimpleBody(maxAttempts: uint32, run: Run, registry: map<string, Replay>, p: Progress, log: seq<Event>,
                      ghost t: Turn, body: Body, answers: Answers)
    returns (p': Progress, log': seq<Event>, settled: seq<Settlement>)
    requires Inv(run, registry, p, log) && Open(p) && log != [] && log[|log| - 1].Advanced?
    requires CheckBody(p, body).None? || (body.ResourceUsage? && p.handshake)
    requires body.ResourceUsage? ==> body.units <= run.maxUnits && (run.maxCost > 0 ==> body.cost <= run.maxCost)
    requires !body.CapabilityCall? && !body.OutputDelta?
    ensures Inv(run, registry, p', log') && p'.run == p.run
    ensures body.KernelBody? || BodySettles(maxAttempts, run, registry, log, t, body, answers, log', settled)
    ensures settled != [] ==> Settled(maxAttempts, p', answers, settled) && !Success(settled)
  {
    hide RunInv, CallsInv, OrderInv, OutputInv, FailPublic;
    SameLimits(run, registry, p, log);
    p', log', settled := p, log, [];
    match body {
      case RunAccepted(_) =>
        p' := p.(handshake := true);
        log' := log + [Handshook];
        PlainEffect(run, registry, p, p', log, Handshook);
      case ResourceUsage(units, cost, retries) =>
        p' := p.(usageReported := true);
        log' := log + [Usage(units, cost, retries)];
        PlainEffect(run, registry, p, p', log, Usage(units, cost, retries));
      case RunFailure(code, retryable, _) =>
        p' := p.(failure := Some(Executor(code, retryable)));
        log' := log + [Reported(Executor(code, retryable))];
        PlainEffect(run, registry, p, p', log, Reported(Executor(code, retryable)));
      case FinalResult(payload) =>
        var data := payload.value.data;
        if |data| as uint64 > p.run.maxOutputBytes {
          FailSettles(maxAttempts, p, Echo(BudgetExceeded), false, answers);
          settled := FailPublic(maxAttempts, p.run, Echo(BudgetExceeded), false, answers);
          return;
        }
        p' := p.(final := data);
        log' := log + [Final(data)];
        PlainEffect(run, registry, p, p', log, Final(data));
    }
  }

  /** EffectKeeps for the events that touch neither the budgets nor the counters. */
  lemma PlainEffect(run: Run, registry: map<string, Replay>, p: Progress, p': Progress, log: seq<Event>, e: Event)
    requires Inv(run, registry, p, log) && Open(p) && log != [] && log[|log| - 1].Advanced?
    requires e.Handshook? || e.Usage? || e.Final? || e.Reported?
    requires e.Handshook? <==> !p.handshake
    requires e.Final? ==> p.usageReported && e.output != [] && |e.output| <= run.maxOutputBytes as int
    requires e.Usage? ==> e.units <= run.maxUnits && (run.maxCost > 0 ==> e.cost <= run.maxCost)
    requires p' == p.(handshake := true, usageReported := p.usageReported || e.Usage?,
                      final := if e.Final? then e.output else [],
                      failure := if e.Reported? then Some(e.error) else None)
    ensures Inv(run, registry, p', log + [e])
  {
    OutputBound(run, registry, p, log);
    EffectKeeps(run, registry, p, p', log, e);
  }

  lemma OutputBound(run: Run, registry: map<string, Replay>, p: Progress, log: seq<Event>)
    requires OutputInv(run, registry, p, log)
    ensures p.outputBytes as int <= run.maxOutputBytes as int
  {
  }

  method OnFrame(maxAttempts: uint32, run: Run, registry: map<string, Replay>, p: Progress, log: seq<Event>,
                 t: Turn, answers: Answers)
    returns (p': Progress, log': seq<Event>, settled: seq<Settlement>)
    requires Inv(run, registry, p, log) && UsageInv(run, p, log) && t.received.Got?
    ensures Inv(run, registry, p', log') && UsageInv(run, p', log')
    ensures FrameSettles(maxAttempts, run, registry, log, t, t.received.frame, answers, log', settled)
    ensures settled != [] ==> Settled(maxAttempts, p', answers, settled) && !Success(settled)
  {
    hide RunInv, CallsInv, OrderInv, OutputInv, FailPublic, Acceptable, OutOfCalls, UsageInv, BodySettles;
    p', log', settled := p, log, [];
    var frame := t.received.frame;
    var rejected := Screen(run, registry, p, log, frame);
    if rejected.Some? {
      FailSettles(maxAttempts, p, Echo(rejected.value), p.safe, answers);
      settled := FailPublic(maxAttempts, p.run, Echo(rejected.value), p.safe, answers);
      return;
    }
    if !t.advanced {
      FailSettles(maxAttempts, p, Echo(InternalError), p.safe, answers);
      settled := if t.atAdvance == Cancelled then CANCELLED
                 else if t.atAdvance == DeadlineExceeded then TIMED_OUT
                 else FailPublic(maxAttempts, p.run, Echo(InternalError), p.safe, answers);
      return;
    }
    p' := AdvanceTo(p, frame.sequence);
    log' := log + [Advanced(frame.sequence)];
    AdvanceKeeps(run, registry, p, log);
    AdvancedUsage(run, p, log);
    p', log', settled := OnBody(maxAttempts, run, registry, p', log', frame.body.value, t, answers);
  }

  lemma AdvancedUsage(run: Run, p: Progress, log: seq<Event>)
    requires UsageInv(run, p, log)
    ensures UsageInv(run, AdvanceTo(p, p.expected), log + [Advanced(p.expected)])
  {
    LastUsageSnoc(log, Advanced(p.expected));
  }

  /** The branch for the body of a frame whose number has been persisted. */
  method OnBody(maxAttempts: uint32, run: Run, registry: map<string, Replay>, p: Progress, log: seq<Event>,
                body: Body, t: Turn, answers: Answers)
    returns (p': Progress, log': seq<Event>, settled: seq<Settlement>)
    requires Inv(run, registry, p, log) && UsageInv(run, p, log)
    requires Open(p) && CheckBody(p, body).None? && log != [] && log[|log| - 1].Advanced?
    ensures Inv(run, registry, p', log') && UsageInv(run, p', log')
    ensures BodySettles(maxAttempts, run, registry, log, t, body, answers, log', settled)
    ensures settled != [] ==> Settled(maxAttempts, p', answers, settled) && !Success(settled)
  {
    hide RunInv, CallsInv, OrderInv, OutputInv, FailPublic, FailsWith, UsageOk, UsageIs, CallSettles, EmitSettles;
    SameLimits(run, registry, p, log);
    p', log', settled := p, log, [];
    match body {
      case CapabilityCall(callId, capability, _) =>
        p', log', settled := OnCapabilityCall(maxAttempts, run, registry, p, log, callId, capability, t, answers);
        SameUsage(run, p, log, p', log');
      case OutputDelta(payload) =>
        p', log', settled := OnOutputDelta(maxAttempts, run, registry, p, log, payload.value.data, t, answers);
        SameUsage(run, p, log, p', log');
      case ResourceUsage(units, cost, retries) =>
        UsageLimits(p.run, units, cost, retries);
        p' := RecordUsage(p, units, cost, retries);
        RecordKeeps(run, registry, p, p', log, units, cost, retries);
        p', log', settled := OnSimpleBody(maxAttempts, run, registry, p', log, t, body, answers);
        NewUsage(run, p', log, body);
      case _ =>
        p', log', settled := OnSimpleBody(maxAttempts, run, registry, p, log, t, body, answers);
        SameUsage(run, p, log, p', log');
    }
  }

  lemma SameUsage(run: Run, p: Progress, log: seq<Event>, p': Progress, log': seq<Event>)
    requires UsageInv(run, p, log) && p'.run == p.run
    requires log' == log || (|log'| == |log| + 1 && log'[..|log|] == log && !log'[|log|].Usage?)
    ensures UsageInv(run, p', log')
  {
    if log' != log {
      assert log' == log + [log'[|log|]];
      LastUsageSnoc(log, log'[|log|]);
    }
  }

  lemma NewUsage(run: Run, p: Progress, log: seq<Event>, body: Body)
    requires body.ResourceUsage? && p.run.usedUnits == body.units && p.run.usedCost == body.cost
    requires p.run.usedRetries == body.retries
    ensures UsageInv(run, p, log + [Usage(body.units, body.cost, body.retries)])
  {
    LastUsageSnoc(log, Usage(body.units, body.cost, body.retries));
  }

  lemma UsageLimits(run: Run, units: uint64, cost: uint64, retries: uint32)
    requires UsageOk(run, units, cost, retries)
    ensures units <= run.maxUnits && (run.maxCost > 0 ==> cost <= run.maxCost)
    ensures forall sequence: uint64 :: UsageOk(run.(lastSequence := sequence), units, cost, retries)
  {
  }

  /** A turn adds at most what its frame asks for, and exactly that if the loop goes on. */
  lemma TurnLog(maxAttempts: uint32, run: Run, registry: map<string, Replay>, log: seq<Event>, t: Turn,
                answers: Answers, log': seq<Event>, settled: seq<Settlement>)
    requires TurnSettles(maxAttempts, run, registry, log, t, answers, log', settled)
    ensures log <= log' <= log + Contribution(log, t)
    ensures settled == [] ==> log' == log + Contribution(log, t)
  {
    hide Acceptable, OutOfCalls, FailsWith, Replayable;
    if t.received.Got? && t.received.frame.body.Some? {
      Snoc(log, Advanced(t.received.frame.sequence));
    }
    if t.received.Got? && Acceptable(run, log, t.received.frame) {
      HasBody(run, log, t.received.frame);
    }
    hide CallsOf, DeltaBytes;
  }

  lemma HasBody(run: Run, log: seq<Event>, f: Frame)
    requires Acceptable(run, log, f)
    ensures f.body.Some?
  {
  }

  /** The k-th turn went as it has to, from the log of the turns before it. */
  ghost predicate TurnAt(maxAttempts: uint32, run: Run, registry: map<string, Replay>, script: seq<Turn>,
                         answers: Answers, k: nat)
    requires k < |script|
  {
    TurnSettles(maxAttempts, run, registry, LogOf(script[..k]), script[k], answers, LogOf(script[..k + 1]), [])
  }

  /**
   After so many turns the log and the settlement are exactly what the rules ask for, turn by turn; only
   the last turn may have settled the run.
   */
  ghost predicate Ran(maxAttempts: uint32, run: Run, registry: map<string, Replay>, script: seq<Turn>, answers: Answers,
                      turns: nat, log: seq<Event>, settled: seq<Settlement>) {
    && turns <= |script|
    && (forall k: nat :: k < turns && (settled == [] || k < turns - 1) ==>
          TurnAt(maxAttempts, run, registry, script, answers, k))
    && if settled == [] then log == LogOf(script[..turns])
       else && turns > 0
            && TurnSettles(maxAttempts, run, registry, LogOf(script[..turns - 1]), script[turns - 1], answers, log,
                           settled)
  }

  lemma LogNext(script: seq<Turn>, k: nat)
    requires k < |script|
    ensures LogOf(script[..k + 1]) == LogOf(script[..k]) + Contribution(LogOf(script[..k]), script[k])
  {
    assert script[..k + 1][..k] == script[..k];
  }

  lemma RanNext(maxAttempts: uint32, run: Run, registry: map<string, Replay>, script: seq<Turn>, answers: Answers,
                turns: nat, log: seq<Event>, log': seq<Event>, settled: seq<Settlement>)
    requires turns < |script| && Ran(maxAttempts, run, registry, script, answers, turns, log, [])
    requires TurnSettles(maxAttempts, run, registry, log, script[turns], answers, log', settled)
    ensures Ran(maxAttempts, run, registry, script, answers, turns + 1, log', settled)
  {
    hide TurnSettles, Contribution, LogOf;
    TurnLog(maxAttempts, run, registry, log, script[turns], answers, log', settled);
    LogNext(script, turns);
    if settled == [] {
      assert TurnAt(maxAttempts, run, registry, script, answers, turns);
    }
  }

  /**
   The receive loop over any script of frames, contexts, store and stream answers. `turns` is how many
   turns it took; no settlement means that the script ran out while the loop was still going.
   */
  method ReceiveLoop(maxAttempts: uint32, run: Run, registry: map<string, Replay>, script: seq<Turn>, answers: Answers)
    returns (p: Progress, log: seq<Event>, settled: seq<Settlement>, turns: nat)
    ensures Sound(run, log)
    ensures Ran(maxAttempts, run, registry, script, answers, turns, log, settled)
    ensures settled == [] ==> turns == |script|
    ensures log <= LogOf(script[..turns]) && (turns > 0 ==> LogOf(script[..turns - 1]) <= log)
    ensures Success(settled) <==> settled != [] && Finishes(script[turns - 1], log)
    ensures Success(settled) ==> log != [] && log[|log| - 1] == Final(settled[0].output) && settled[0].output != []
    ensures forall k: nat :: k < turns && Persists(script, turns, log, k) ==> Own(run, script[k].received.frame)
    ensures settled != [] ==> SettledOnce(settled)
    ensures settled != [] && settled[0].RetryWritten? ==>
              && Replayable(registry, log) && run.attempt < maxAttempts
              && FreshAttempt(run, settled[0].next, answers.nextId)
    ensures p.safe <==> Replayable(registry, log)
    ensures p.run.usedUnits as int == run.usedUnits as int + p.countedUnits
    ensures p.run.usedCost as int == run.usedCost as int + p.countedCost
    ensures p.run.usedRetries as int == run.usedRetries as int + p.countedRetries
  {
    hide RunInv, CallsInv, OrderInv, OutputInv, UsageInv, Sound, SettledOnce, TurnSettles, FrameSettles;
    hide EndSettles, FreshAttempt, Finishes, Own, Persists, Ran, LogOf, Replayable;
    p, log, settled, turns := Start(run), [], [], 0;
    InvStart(run, registry);
    RanStart(maxAttempts, run, registry, script, answers);
    while turns < |script| && settled == []
      invariant turns <= |script| && Inv(run, registry, p, log) && UsageInv(run, p, log)
      invariant Ran(maxAttempts, run, registry, script, answers, turns, log, settled)
      invariant settled != [] ==> Settled(maxAttempts, p, answers, settled)
      decreases |script| - turns, settled == []
    {
      var t := script[turns];
      ghost var before := log;
      if t.received.Got? {
        p, log, settled := OnFrame(maxAttempts, run, registry, p, log, t, answers);
      } else {
        settled := OnStreamEnd(maxAttempts, run, registry, p, log, t, answers);
      }
      TurnIs(maxAttempts, run, registry, before, t, answers, log, settled);
      RanNext(maxAttempts, run, registry, script, answers, turns, before, log, settled);
      turns := turns + 1;
    }
    InvSound(run, registry, p, log);
    InvFacts(run, registry, p, log);
    RanFacts(maxAttempts, run, registry, script, answers, turns, log, settled);
    if settled != [] && settled[0].RetryWritten? {
      RetryIsFresh(run, registry, p, log, answers.nextId);
    }
  }

  lemma RanStart(maxAttempts: uint32, run: Run, registry: map<string, Replay>, script: seq<Turn>, answers: Answers)
    ensures Ran(maxAttempts, run, registry, script, answers, 0, [], [])
  {
  }

  /** The stream ends with a final result in hand and the completion is recorded. */
  ghost predicate Finishes(t: Turn, log: seq<Event>) {
    t.received.EndOfStream? && t.atReceive == Live && t.emitted && log != [] && log[|log| - 1].Final?
  }

  /** The k-th turn had a frame whose number was persisted. */
  ghost predicate Persists(script: seq<Turn>, turns: nat, log: seq<Event>, k: nat)
    requires k < turns <= |script|
  {
    && script[k].received.Got?
    && (k < turns - 1 || |log| > |LogOf(script[..k])|)
  }

  /** What a turn's rule says about success and about the frames it takes. */
  lemma TurnFacts(maxAttempts: uint32, run: Run, registry: map<string, Replay>, log: seq<Event>, t: Turn,
                  answers: Answers, log': seq<Event>, settled: seq<Settlement>)
    requires TurnSettles(maxAttempts, run, registry, log, t, answers, log', settled)
    ensures Success(settled) <==> settled != [] && Finishes(t, log')
    ensures Success(settled) ==> settled[0].output == log'[|log'| - 1].output
    ensures t.received.Got? && (settled == [] || |log'| > |log|) ==> Own(run, t.received.frame)
  {
    hide BodyInOrder, OutOfCalls, Replayable, FreshAttempt;
  }

  lemma TurnIs(maxAttempts: uint32, run: Run, registry: map<string, Replay>, log: seq<Event>, t: Turn,
               answers: Answers, log': seq<Event>, settled: seq<Settlement>)
    ensures TurnSettles(maxAttempts, run, registry, log, t, answers, log', settled) <==>
              if t.received.Got? then
                FrameSettles(maxAttempts, run, registry, log, t, t.received.frame, answers, log', settled)
              else log' == log && EndSettles(maxAttempts, run, registry, log, t, answers, settled)
  {
  }

  lemma OwnFrame(maxAttempts: uint32, run: Run, registry: map<string, Replay>, script: seq<Turn>, answers: Answers,
                 turns: nat, log: seq<Event>, settled: seq<Settlement>, k: nat)
    requires k < turns <= |script| && Persists(script, turns, log, k)
    requires (settled == [] || k < turns - 1) ==> TurnAt(maxAttempts, run, registry, script, answers, k)
    requires settled != [] && k == turns - 1 ==>
               TurnSettles(maxAttempts, run, registry, LogOf(script[..k]), script[k], answers, log, settled)
    ensures Own(run, script[k].received.frame)
  {
    hide TurnSettles, Own;
    if settled == [] || k < turns - 1 {
      TurnFacts(maxAttempts, run, registry, LogOf(script[..k]), script[k], answers, LogOf(script[..k + 1]), []);
    } else {
      TurnFacts(maxAttempts, run, registry, LogOf(script[..k]), script[k], answers, log, settled);
    }
  }

  lemma RanFacts(maxAttempts: uint32, run: Run, registry: map<string, Replay>, script: seq<Turn>, answers: Answers,
                 turns: nat, log: seq<Event>, settled: seq<Settlement>)
    requires Ran(maxAttempts, run, registry, script, answers, turns, log, settled) && Sound(run, log)
    ensures log <= LogOf(script[..turns]) && (turns > 0 ==> LogOf(script[..turns - 1]) <= log)
    ensures Success(settled) <==> settled != [] && Finishes(script[turns - 1], log)
    ensures Success(settled) ==> log != [] && log[|log| - 1] == Final(settled[0].output) && settled[0].output != []
    ensures forall k: nat :: k < turns && Persists(script, turns, log, k) ==> Own(run, script[k].received.frame)
  {
    hide TurnSettles, Contribution, Own;
    if turns > 0 {
      assert script[..turns][..turns - 1] == script[..turns - 1];
      var before, t := LogOf(script[..turns - 1]), script[turns - 1];
      if settled == [] {
        assert TurnAt(maxAttempts, run, registry, script, answers, turns - 1);
      }
      TurnLog(maxAttempts, run, registry, before, t, answers, log, settled);
      TurnFacts(maxAttempts, run, registry, before, t, answers, log, settled);
    }
    forall k: nat | k < turns && Persists(script, turns, log, k) ensures Own(run, script[k].received.frame) {
      OwnFrame(maxAttempts, run, registry, script, answers, turns, log, settled, k);
    }
  }

  lemma RetryIsFresh(run: Run, registry: map<string, Replay>, p: Progress, log: seq<Event>, id: string)
    requires Inv(run, registry, p, log) && p.run.attempt as int < 0xFFFF_FFFF
    ensures FreshAttempt(run, NextAttempt(p.run, id), id)
  {
  }

  lemma InvFacts(run: Run, registry: map<string, Replay>, p: Progress, log: seq<Event>)
    requires Inv(run, registry, p, log)
    ensures p.safe <==> Replayable(registry, log)
    ensures p.run.attempt == run.attempt && p.run.usedUnits as int == run.usedUnits as int + p.countedUnits
    ensures p.run.usedCost as int == run.usedCost as int + p.countedCost
    ensures p.run.usedRetries as int == run.usedRetries as int + p.countedRetries
    ensures p.final != [] ==> log != [] && log[|log| - 1] == Final(p.final)
  {
  }

  // ---- the chain of attempts ----

  /** How an attempt fares before its receive loop. */
  datatype Prelude = Ready | FailsFirst(error: PublicError, safe: bool) | EndsFirst(status: Status, error: PublicError)

  datatype AttemptScript = AttemptScript(prelude: Prelude, script: seq<Turn>, answers: Answers)

  datatype Attempt = Attempt(run: Run, log: seq<Event>, settled: seq<Settlement>)

  /** One attempt leads to the next only by its own retry, and only if all it dispatched is safe to replay. */
  ghost predicate Leads(maxAttempts: uint32, registry: map<string, Replay>, a: Attempt, b: Attempt) {
    && Replayable(registry, a.log) && a.run.attempt < maxAttempts
    && a.settled == [RetryWritten(b.run)] && FreshAttempt(a.run, b.run, b.run.id)
  }

  predicate Retried(a: Attempt) {
    a.settled != [] && a.settled[0].RetryWritten?
  }

  /** An attempt that did not get to its receive loop is settled by what stopped it; `safe` allows a retry. */
  ghost predicate PreludeSettles(maxAttempts: uint32, run: Run, registry: map<string, Replay>, a: AttemptScript,
                                 settled: seq<Settlement>) {
    match a.prelude
    case Ready => true
    case FailsFirst(error, safe) =>
      if safe then FailsWith(maxAttempts, run, registry, [], error, a.answers, settled)
      else settled == [Completed(Failed, [], Some(error))]
    case EndsFirst(status, error) => settled == [Completed(status, [], Some(error))]
  }

  method RunAttempt(maxAttempts: uint32, run: Run, registry: map<string, Replay>, a: AttemptScript) returns (r: Attempt)
    ensures r.run == run && Sound(run, r.log)
    ensures PreludeSettles(maxAttempts, run, registry, a, r.settled) && (!a.prelude.Ready? ==> r.log == [])
    ensures r.settled != [] ==> SettledOnce(r.settled)
    ensures r.settled != [] && r.settled[0].RetryWritten? ==>
              && Replayable(registry, r.log) && run.attempt < maxAttempts
              && FreshAttempt(run, r.settled[0].next, a.answers.nextId)
  {
    InvStart(run, registry);
    InvSound(run, registry, Start(run), []);
    match a.prelude {
      case Ready =>
        var p, log, settled, turns := ReceiveLoop(maxAttempts, run, registry, a.script, a.answers);
        r := Attempt(run, log, settled);
      case FailsFirst(error, safe) =>
        if safe {
          FailPublicIs(maxAttempts, run, registry, Start(run), [], error, a.answers);
        }
        r := Attempt(run, [], FailPublic(maxAttempts, run, error, safe, a.answers));
      case EndsFirst(status, error) =>
        r := Attempt(run, [], [Completed(status, [], Some(error))]);
    }
  }

  /**
   A whole retry chain. Attempts are numbered one after the other and never beyond maxAttempts, each
   starts with fresh budgets, and an attempt that dispatched a capability that is not safe to replay
   is the last one.
   */
  method RunChain(maxAttempts: uint32, first: Run, registry: map<string, Replay>, scripts: seq<AttemptScript>)
    returns (history: seq<Attempt>)
    ensures scripts != [] ==> history != [] && history[0].run == first
    ensures forall k :: 0 <= k < |history| ==> Sound(history[k].run, history[k].log)
    ensures forall k :: 0 <= k < |history| - 1 ==> Leads(maxAttempts, registry, history[k], history[k + 1])
    ensures forall k :: 0 <= k < |history| ==> history[k].run.attempt as int == first.attempt as int + k
    ensures forall k :: 0 < k < |history| ==> history[k].run.attempt <= maxAttempts
    ensures forall k :: 0 <= k < |history| && !Replayable(registry, history[k].log) ==> k == |history| - 1
    ensures |history| < |scripts| ==> history != [] && !Retried(history[|history| - 1])
  {
    hide Sound, Replayable, SettledOnce;
    history := [];
    var run := first;
    var going := true;
    while |history| < |scripts| && going
      invariant |history| <= |scripts|
      invariant history != [] ==> history[0].run == first
      invariant history == [] ==> run == first && going
      invariant !going ==> history != [] && !Retried(history[|history| - 1])
      invariant going && history != [] ==>
                  Leads(maxAttempts, registry, history[|history| - 1], Attempt(run, [], []))
      invariant forall k :: 0 <= k < |history| ==> Sound(history[k].run, history[k].log)
      invariant forall k :: 0 <= k < |history| - 1 ==> Leads(maxAttempts, registry, history[k], history[k + 1])
      invariant forall k :: 0 <= k < |history| ==> history[k].run.attempt as int == first.attempt as int + k
      decreases |scripts| - |history|
    {
      var a := RunAttempt(maxAttempts, run, registry, scripts[|history|]);
      history := history + [a];
      going := Retried(a);
      if going {
        RetryAlone(a.settled);
        run := a.settled[0].next;
      }
    }
    forall k | 0 <= k < |history| && !Replayable(registry, history[k].log) ensures k == |history| - 1 {
      assert k < |history| - 1 ==> Leads(maxAttempts, registry, history[k], history[k + 1]);
    }
    forall k | 0 < k < |history| ensures history[k].run.attempt <= maxAttempts {
      var j := k - 1;
      assert Leads(maxAttempts, registry, history[j], history[j + 1]);
    }
  }

  lemma RetryAlone(settled: seq<Settlement>)
    requires SettledOnce(settled) && settled[0].RetryWritten?
    ensures settled == [settled[0]]
  {
  }
}
