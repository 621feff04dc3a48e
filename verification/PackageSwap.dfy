/**
 UpgradePackage at the granularity of its entry locks: it locks the components one by one, swaps them
 one by one, and unlocks them one by one, while calls acquire leases on any component that is not
 locked. An acquisition records the component and how often that component had been swapped.
 */
module PackageSwap {

  datatype Pc = Idle | Locking(next: nat) | Swapping(next: nat) | Unlocking(next: nat) | Aborting(next: nat)

  datatype Acquired = Acquired(component: nat, epoch: nat)

  datatype State = State(locked: seq<bool>, epochs: seq<nat>, pc: Pc, log: seq<Acquired>)

  datatype Action = Begin | Lock | Ready | Abort | Swap | SwapDone | Unlock | UnlockDone | Acquire(component: nat)

  function Init(n: nat): State {
    State(seq(n, i => false), seq(n, i => 0), Idle, [])
  }

  predicate Shaped(s: State) {
    |s.locked| == |s.epochs|
  }

  predicate Enabled(s: State, a: Action) {
    var n := |s.locked|;
    && Shaped(s)
    && match a
       case Begin => s.pc == Idle
       case Lock => s.pc.Locking? && s.pc.next < n && !s.locked[s.pc.next]
       case Ready => s.pc.Locking? && s.pc.next == n
       case Abort => s.pc.Locking? && s.pc.next == n
       case Swap => s.pc.Swapping? && s.pc.next < n
       case SwapDone => s.pc.Swapping? && s.pc.next == n
       case Unlock => (s.pc.Unlocking? || s.pc.Aborting?) && s.pc.next < n
       case UnlockDone => (s.pc.Unlocking? || s.pc.Aborting?) && s.pc.next == n
       case Acquire(i) => i < n && !s.locked[i]
  }

  function Apply(s: State, a: Action): State
    requires Enabled(s, a)
  {
    match a
    case Begin => s.(pc := Locking(0))
    case Lock => s.(locked := s.locked[s.pc.next := true], pc := Locking(s.pc.next + 1))
    case Ready => s.(pc := Swapping(0))
    case Abort => s.(pc := Aborting(0))
    case Swap => s.(epochs := s.epochs[s.pc.next := s.epochs[s.pc.next] + 1], pc := Swapping(s.pc.next + 1))
    case SwapDone => s.(pc := Unlocking(0))
    case Unlock =>
      s.(locked := s.locked[s.pc.next := false],
         pc := if s.pc.Unlocking? then Unlocking(s.pc.next + 1) else Aborting(s.pc.next + 1))
    case UnlockDone => s.(pc := Idle)
    case Acquire(i) => s.(log := s.log + [Acquired(i, s.epochs[i])])
  }

  ghost predicate Run(s: State, acts: seq<Action>, s': State)
    decreases |acts|
  {
    if acts == [] then s' == s
    else Enabled(s, acts[0]) && Run(Apply(s, acts[0]), acts[1..], s')
  }

  /** Acquisitions never go back to an earlier version of any component of the package. */
  ghost predicate Monotone(log: seq<Acquired>) {
    forall i, j :: 0 <= i < j < |log| ==> log[i].epoch <= log[j].epoch
  }

  /** All components agree on their version, except in the middle of the swap, when all are locked. */
  ghost predicate Inv(s: State, epoch: nat) {
    var n := |s.locked|;
    && Shaped(s)
    && Monotone(s.log)
    && (forall k :: 0 <= k < |s.log| ==> s.log[k].epoch <= epoch)
    && (forall i :: 0 <= i < n ==> s.epochs[i] == if s.pc.Swapping? && i < s.pc.next then epoch + 1 else epoch)
    && (match s.pc
        case Idle => forall i :: 0 <= i < n ==> !s.locked[i]
        case Locking(k) => k <= n && forall i :: 0 <= i < n ==> (s.locked[i] <==> i < k)
        case Swapping(k) => k <= n && forall i :: 0 <= i < n ==> s.locked[i]
        case Unlocking(k) => k <= n && forall i :: 0 <= i < n ==> (s.locked[i] <==> k <= i)
        case Aborting(k) => k <= n && forall i :: 0 <= i < n ==> (s.locked[i] <==> k <= i))
  }

  lemma StepKeeps(s: State, epoch: nat, a: Action)
    requires Inv(s, epoch) && Enabled(s, a)
    ensures Inv(Apply(s, a), if a.SwapDone? then epoch + 1 else epoch)
  {
  }

  // ---- what an upgrade comes to ----

  /** The upgrade's own next action when its checks pass. */
  function Next(s: State): Action {
    match s.pc
    case Idle => Begin
    case Locking(k) => if k < |s.locked| then Lock else Ready
    case Swapping(k) => if k < |s.locked| then Swap else SwapDone
    case _ => if s.pc.next < |s.locked| then Unlock else UnlockDone
  }

  /** The steps an upgrade in progress has left. */
  function Left(s: State): nat {
    var n := |s.locked|;
    match s.pc
    case Idle => 0
    case Locking(k) => if k <= n then 3 * n + 3 - k else 0
    case Swapping(k) => if k <= n then 2 * n + 2 - k else 0
    case _ => if s.pc.next <= n then n + 1 - s.pc.next else 0
  }

  predicate Switches(s: State) {
    s.pc.Locking? || s.pc.Swapping?
  }

  lemma NextGoesOn(s: State, epoch: nat)
    requires Inv(s, epoch) && s.pc != Idle
    ensures Enabled(s, Next(s)) && Left(Apply(s, Next(s))) < Left(s)
    ensures Apply(s, Next(s)).log == s.log && |Apply(s, Next(s)).locked| == |s.locked|
    ensures Switches(Apply(s, Next(s))) <==> Switches(s) && !Next(s).SwapDone?
  {
  }

  /**
   An upgrade that has begun can always go on to its end, whatever was acquired so far, and then every
   component is unlocked. All are one version further if it had not aborted or switched already.
   */
  lemma {:induction false} CanFinish(s: State, epoch: nat) returns (acts: seq<Action>, end: State)
    requires Inv(s, epoch)
    ensures Run(s, acts, end) && end.pc == Idle && end.log == s.log && |end.locked| == |s.locked| == |end.epochs|
    ensures forall i :: 0 <= i < |end.locked| ==>
              !end.locked[i] && end.epochs[i] == epoch + if Switches(s) then 1 else 0
    decreases Left(s)
  {
    if s.pc == Idle {
      acts, end := [], s;
    } else {
      NextGoesOn(s, epoch);
      StepKeeps(s, epoch, Next(s));
      hide Inv, Apply, Enabled, Left;
      var rest;
      rest, end := CanFinish(Apply(s, Next(s)), if Next(s).SwapDone? then epoch + 1 else epoch);
      acts := [Next(s)] + rest;
      assert acts[1..] == rest;
    }
  }

  /** An upgrade of a package at rest brings every component one version further and leaves none locked. */
  lemma CanSwap(s: State, epoch: nat) returns (acts: seq<Action>, end: State)
    requires Inv(s, epoch) && s.pc == Idle
    ensures Run(s, acts, end) && end == s.(epochs := seq(|s.epochs|, i => epoch + 1))
  {
    StepKeeps(s, epoch, Begin);
    var rest;
    rest, end := CanFinish(Apply(s, Begin), epoch);
    acts := [Begin] + rest;
    assert acts[1..] == rest;
    assert end.epochs == seq(|s.epochs|, i => epoch + 1) && end.locked == s.locked;
  }
}
