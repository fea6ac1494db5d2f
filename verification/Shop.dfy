// The night shift of zadania_6/w6/sop-shop.c: workers compare and swap pairs of
// shelves under two shelf mutexes taken low first, a manager looks on, and a
// control mutex guards "running" and the number of workers that have finished.
module Shop {
  import Runs
  import opened Sums
  import opened Inversions

  const ROUNDS := 10   // the bound of the loop in children_work

  datatype Holder = Free | Worker(id: nat) | Manager

  datatype Pc =
    | WantControl    // pthread_mutex_lock(&sd->mutex), top of the loop
    | CheckRunning   // reads sd->running and unlocks
    | Pick           // chooses low < high
    | WantLow | WantHigh
    | Compare        // shelves[low] > shelves[high]
    | SwapHigh       // swap: tmp = *y; *y = *x
    | SwapLow        // swap: *x = tmp
    | UnlockHigh | UnlockLow
    | WantReport     // pthread_mutex_lock(&sd->mutex), after the loop
    | Report         // sd->ile++ and unlock
    | Done

  datatype WorkerState = WorkerState(pc: Pc, round: nat, low: nat, high: nat, tmp: int)

  datatype ManagerPc = MWant | MDecide | MDone

  // "reported" is sd->ile.  "target" is what the shelves will hold once the swaps that
  // have begun are complete, and "swaps" counts the swaps that have begun.
  datatype State = State(
    shelves: seq<int>, owner: seq<Holder>,
    running: bool, reported: nat, control: Holder,
    workers: seq<WorkerState>, manager: ManagerPc,
    target: seq<int>, swaps: nat)

  function Rested(): WorkerState { WorkerState(WantControl, 0, 0, 0, 0) }

  ghost predicate Init(s: State) {
    && |s.owner| == |s.shelves|
    && (forall k :: 0 <= k < |s.owner| ==> s.owner[k] == Free)
    && s.running && s.reported == 0 && s.control == Free
    && (forall w :: 0 <= w < |s.workers| ==> s.workers[w] == Rested())
    && s.manager == MWant
    && s.target == s.shelves && s.swaps == 0
  }

  // ----- workers

  predicate CanAct(s: State, w: nat, low: nat, high: nat) {
    && w < |s.workers|
    && |s.owner| == |s.shelves| == |s.target|
    && var x := s.workers[w];
       match x.pc
       case WantControl => s.control == Free
       case WantReport => s.control == Free
       case CheckRunning => true
       case Report => true
       case Pick => low < high < |s.shelves|
       case Done => false
       case _ =>
         && x.low < x.high < |s.shelves|
         && (x.pc == WantLow ==> s.owner[x.low] == Free)
         && (x.pc == WantHigh ==> s.owner[x.high] == Free)
  }

  // Worker x after its next action.
  function WorkerAfter(s: State, x: WorkerState, low: nat, high: nat): WorkerState
    requires x.pc in {Compare, SwapHigh} ==> x.low < |s.shelves| && x.high < |s.shelves|
  {
    match x.pc
    case WantControl => x.(pc := CheckRunning)
    case CheckRunning => x.(pc := if s.running then Pick else WantReport)
    case Pick => x.(pc := WantLow, low := low, high := high)
    case WantLow => x.(pc := WantHigh)
    case WantHigh => x.(pc := Compare)
    case Compare => x.(pc := if s.shelves[x.low] > s.shelves[x.high] then SwapHigh else UnlockHigh)
    case SwapHigh => x.(pc := SwapLow, tmp := s.shelves[x.high])
    case SwapLow => x.(pc := UnlockHigh)
    case UnlockHigh => x.(pc := UnlockLow)
    case UnlockLow => x.(pc := if x.round + 1 >= ROUNDS then WantReport else WantControl, round := x.round + 1)
    case WantReport => x.(pc := Report)
    case Report => x.(pc := Done)
    case Done => x
  }

  function ControlAfter(control: Holder, w: nat, pc: Pc): Holder {
    match pc
    case WantControl => Worker(w)
    case WantReport => Worker(w)
    case CheckRunning => Free
    case Report => Free
    case _ => control
  }

  function OwnerAfter(owner: seq<Holder>, w: nat, x: WorkerState): seq<Holder>
    requires x.pc in {WantLow, WantHigh, UnlockHigh, UnlockLow} ==> x.low < |owner| && x.high < |owner|
  {
    match x.pc
    case WantLow => owner[x.low := Worker(w)]
    case WantHigh => owner[x.high := Worker(w)]
    case UnlockHigh => owner[x.high := Free]
    case UnlockLow => owner[x.low := Free]
    case _ => owner
  }

  function ShelvesAfter(shelves: seq<int>, x: WorkerState): seq<int>
    requires x.pc in {SwapHigh, SwapLow} ==> x.low < |shelves| && x.high < |shelves|
  {
    match x.pc
    case SwapHigh => shelves[x.high := shelves[x.low]]
    case SwapLow => shelves[x.low := x.tmp]
    case _ => shelves
  }

  // One atomic action of worker w, which picks low and high if it is its turn to pick.
  function Act(s: State, w: nat, low: nat, high: nat): State
    requires CanAct(s, w, low, high)
  {
    var x := s.workers[w];
    s.(shelves := ShelvesAfter(s.shelves, x),
       owner := OwnerAfter(s.owner, w, x),
       control := ControlAfter(s.control, w, x.pc),
       reported := if x.pc == Report then s.reported + 1 else s.reported,
       workers := s.workers[w := WorkerAfter(s, x, low, high)],
       target := if x.pc == SwapHigh then Swapped(s.target, x.low, x.high) else s.target,
       swaps := if x.pc == SwapHigh then s.swaps + 1 else s.swaps)
  }

  ghost predicate WorkerStep(s: State, s': State) {
    exists w: nat, low: nat, high: nat :: CanAct(s, w, low, high) && s' == Act(s, w, low, high)
  }

  // ----- the manager

  // The manager locks the control mutex, and then either stops the shift or goes
  // round again.  It reads the shelves without their mutexes, so what it takes for
  // sorted is left open; it is bound to stop only when every worker has finished.
  ghost predicate ManagerStep(s: State, s': State) {
    || (s.manager == MWant && s.control == Free && s' == s.(manager := MDecide, control := Manager))
    || (s.manager == MDecide && s' == s.(manager := MDone, control := Free, running := false))
    || (s.manager == MDecide && s.reported != |s.workers| && s' == s.(manager := MWant, control := Free))
  }

  ghost predicate Next(s: State, s': State) {
    WorkerStep(s, s') || ManagerStep(s, s')
  }

  // ----- locks

  predicate HoldsLow(x: WorkerState) {
    x.pc in {WantHigh, Compare, SwapHigh, SwapLow, UnlockHigh, UnlockLow}
  }

  predicate HoldsHigh(x: WorkerState) {
    x.pc in {Compare, SwapHigh, SwapLow, UnlockHigh}
  }

  predicate Holds(x: WorkerState, k: int) {
    (HoldsLow(x) && x.low == k) || (HoldsHigh(x) && x.high == k)
  }

  predicate HasPair(x: WorkerState) {
    HoldsLow(x) || x.pc == WantLow
  }

  ghost predicate PairsOk(s: State) {
    && |s.owner| == |s.shelves| == |s.target|
    && forall w :: 0 <= w < |s.workers| && HasPair(s.workers[w]) ==>
         s.workers[w].low < s.workers[w].high < |s.shelves|
  }

  // A shelf mutex is owned by worker w exactly when w is between locking and
  // unlocking it.
  ghost predicate OwnersOk(s: State) {
    && (forall w, k :: 0 <= w < |s.workers| && 0 <= k < |s.owner| ==> OwnerMatches(s, w, k))
    && (forall k :: 0 <= k < |s.owner| && s.owner[k] != Free ==> s.owner[k].Worker? && s.owner[k].id < |s.workers|)
  }

  predicate OwnerMatches(s: State, w: nat, k: nat)
    requires w < |s.workers| && k < |s.owner|
  {
    s.owner[k] == Worker(w) <==> Holds(s.workers[w], k)
  }

  ghost predicate ControlOk(s: State) {
    && (forall w :: 0 <= w < |s.workers| ==>
          (s.control == Worker(w) <==> s.workers[w].pc in {CheckRunning, Report}))
    && (s.control == Manager <==> s.manager == MDecide)
    && (s.control.Worker? ==> s.control.id < |s.workers|)
  }

  ghost predicate LocksOk(s: State) {
    PairsOk(s) && OwnersOk(s) && ControlOk(s)
  }

  lemma ActKeepsPairs(s: State, w: nat, low: nat, high: nat)
    requires PairsOk(s) && CanAct(s, w, low, high)
    ensures PairsOk(Act(s, w, low, high))
  {
  }

  lemma ActKeepsOwner(s: State, w: nat, low: nat, high: nat, v: nat, k: nat)
    requires PairsOk(s) && OwnersOk(s) && CanAct(s, w, low, high)
    requires v < |s.workers| && k < |s.owner|
    ensures OwnerMatches(Act(s, w, low, high), v, k)
  {
    assert OwnerMatches(s, v, k) && OwnerMatches(s, w, k);
    var x := s.workers[w];
    if HasPair(x) {
      assert OwnerMatches(s, w, x.low) && OwnerMatches(s, w, x.high);
    }
  }

  lemma ActKeepsOwners(s: State, w: nat, low: nat, high: nat)
    requires PairsOk(s) && OwnersOk(s) && CanAct(s, w, low, high)
    ensures OwnersOk(Act(s, w, low, high))
  {
    forall v, k | 0 <= v < |s.workers| && 0 <= k < |s.owner| ensures OwnerMatches(Act(s, w, low, high), v, k) {
      ActKeepsOwner(s, w, low, high, v, k);
    }
  }

  lemma ActKeepsControl(s: State, w: nat, low: nat, high: nat)
    requires ControlOk(s) && CanAct(s, w, low, high)
    ensures ControlOk(Act(s, w, low, high))
  {
  }

  // No two workers hold the same shelf.
  lemma HoldersDiffer(s: State, v: nat, w: nat, k: nat)
    requires OwnersOk(s) && v < |s.workers| && w < |s.workers| && k < |s.owner|
    requires Holds(s.workers[v], k) && Holds(s.workers[w], k)
    ensures v == w
  {
    assert OwnerMatches(s, v, k) && OwnerMatches(s, w, k);
  }

  lemma PairsApart(s: State, v: nat, w: nat)
    requires PairsOk(s) && OwnersOk(s) && v < |s.workers| && w < |s.workers| && v != w
    requires HoldsHigh(s.workers[v]) && HoldsHigh(s.workers[w])
    ensures var y, x := s.workers[v], s.workers[w]; {y.low, y.high} !! {x.low, x.high}
  {
    var y := s.workers[v];
    assert OwnerMatches(s, v, y.low) && OwnerMatches(s, v, y.high);
    assert OwnerMatches(s, w, y.low) && OwnerMatches(s, w, y.high);
  }

  // ----- the shelves

  function Iota(n: nat): (r: seq<int>)
    ensures |r| == n && forall i :: 0 <= i < n ==> r[i] == i + 1
  {
    if n == 0 then [] else Iota(n - 1) + [n]
  }

  // The array holds 1, ..., n, each once.
  predicate Stocked(a: seq<int>) {
    multiset(a) == multiset(Iota(|a|))
  }

  // Shelf k is in the middle of a swap.
  predicate HalfSwapped(s: State, k: nat) {
    exists w :: 0 <= w < |s.workers| && s.workers[w].pc == SwapLow && s.workers[w].low == k
  }

  // The shelves are the target except at the low ends of half-finished swaps, whose
  // missing values their workers carry.
  ghost predicate ShelvesOk(s: State) {
    && |s.owner| == |s.shelves| == |s.target|
    && (forall k :: 0 <= k < |s.shelves| && !HalfSwapped(s, k) ==> s.shelves[k] == s.target[k])
    && (forall w :: 0 <= w < |s.workers| ==> CarriesOk(s, s.workers[w]))
  }

  predicate CarriesOk(s: State, x: WorkerState)
    requires |s.shelves| == |s.target|
  {
    && (x.pc == SwapHigh ==> x.low < x.high < |s.shelves| && s.shelves[x.low] > s.shelves[x.high])
    && (x.pc == SwapLow ==>
          x.low < x.high < |s.shelves| && s.target[x.low] == x.tmp && x.tmp < s.shelves[x.high])
    && (x.pc == UnlockHigh ==> x.low < x.high < |s.shelves| && s.shelves[x.low] <= s.shelves[x.high])
  }

  // A held shelf is not in the middle of anybody else's swap.
  lemma HeldIsWhole(s: State, w: nat, k: nat)
    requires PairsOk(s) && OwnersOk(s) && w < |s.workers| && k < |s.owner|
    requires Holds(s.workers[w], k) && !(s.workers[w].pc == SwapLow && s.workers[w].low == k)
    ensures !HalfSwapped(s, k)
  {
    if v :| 0 <= v < |s.workers| && s.workers[v].pc == SwapLow && s.workers[v].low == k {
      HoldersDiffer(s, v, w, k);
    }
  }

  // Nobody else's view of its shelves is touched by an action of worker w.
  lemma OthersCarryOn(s: State, w: nat, low: nat, high: nat, v: nat)
    requires LocksOk(s) && ShelvesOk(s) && CanAct(s, w, low, high) && v < |s.workers| && v != w
    ensures CarriesOk(Act(s, w, low, high), s.workers[v])
  {
    var s', x, y := Act(s, w, low, high), s.workers[w], s.workers[v];
    assert CarriesOk(s, y);
    if x.pc in {SwapHigh, SwapLow} && y.pc in {SwapHigh, SwapLow, UnlockHigh} {
      PairsApart(s, v, w);
    }
  }

  lemma SwapHighKeepsShelves(s: State, w: nat, low: nat, high: nat)
    requires LocksOk(s) && ShelvesOk(s) && CanAct(s, w, low, high) && s.workers[w].pc == SwapHigh
    ensures ShelvesOk(Act(s, w, low, high))
    ensures s.target[s.workers[w].low] > s.target[s.workers[w].high]
  {
    var s', x := Act(s, w, low, high), s.workers[w];
    assert CarriesOk(s, x);
    HeldIsWhole(s, w, x.low);
    HeldIsWhole(s, w, x.high);
    forall v | 0 <= v < |s.workers| && v != w ensures CarriesOk(s', s'.workers[v]) {
      OthersCarryOn(s, w, low, high, v);
    }
    assert HalfSwapped(s', x.low) by { assert s'.workers[w].pc == SwapLow; }
    forall k | 0 <= k < |s.shelves| ensures HalfSwapped(s, k) ==> HalfSwapped(s', k) {
      if v :| 0 <= v < |s.workers| && s.workers[v].pc == SwapLow && s.workers[v].low == k {
        assert s'.workers[v] == s.workers[v];
      }
    }
  }

  lemma OtherActionKeepsShelves(s: State, w: nat, low: nat, high: nat)
    requires LocksOk(s) && ShelvesOk(s) && CanAct(s, w, low, high) && s.workers[w].pc != SwapHigh
    ensures ShelvesOk(Act(s, w, low, high))
  {
    var s', x := Act(s, w, low, high), s.workers[w];
    assert CarriesOk(s, x);
    forall v | 0 <= v < |s.workers| && v != w ensures CarriesOk(s', s'.workers[v]) {
      OthersCarryOn(s, w, low, high, v);
    }
    forall k | 0 <= k < |s.shelves| ensures HalfSwapped(s', k) || s'.shelves[k] == s'.target[k] {
      if v :| 0 <= v < |s.workers| && s.workers[v].pc == SwapLow && s.workers[v].low == k {
        assert v == w || s'.workers[v].pc == SwapLow;
      }
    }
  }

  // ----- the invariant

  function HasReported(x: WorkerState): int { if x.pc == Done then 1 else 0 }

  ghost predicate CountOk(s: State) {
    s.reported == SumBy(s.workers, HasReported)
  }

  ghost predicate Inv(s: State) {
    LocksOk(s) && ShelvesOk(s) && CountOk(s) && Stocked(s.target)
  }

  lemma InvInit(s: State)
    requires Init(s) && Stocked(s.shelves)
    ensures Inv(s)
  {
    SumByBounds(s.workers, HasReported, 0, 0);
  }

  lemma ActKeepsInv(s: State, w: nat, low: nat, high: nat)
    requires Inv(s) && CanAct(s, w, low, high)
    ensures Inv(Act(s, w, low, high))
    ensures var s' := Act(s, w, low, high);
      s'.swaps + |Inverted(s'.target)| <= s.swaps + |Inverted(s.target)|
  {
    var x := s.workers[w];
    ActKeepsPairs(s, w, low, high);
    ActKeepsOwners(s, w, low, high);
    ActKeepsControl(s, w, low, high);
    SumByUpdate(s.workers, HasReported, w, WorkerAfter(s, x, low, high));
    if x.pc == SwapHigh {
      SwapHighKeepsShelves(s, w, low, high);
      SwapLowersInversions(s.target, x.low, x.high);
    } else {
      OtherActionKeepsShelves(s, w, low, high);
    }
  }

  lemma ManagerKeepsInv(s: State, s': State)
    requires Inv(s) && ManagerStep(s, s')
    ensures Inv(s')
  {
    forall w, k | 0 <= w < |s.workers| && 0 <= k < |s.owner| ensures OwnerMatches(s', w, k) {
      assert OwnerMatches(s, w, k);
    }
    forall k | 0 <= k < |s.shelves| ensures HalfSwapped(s', k) == HalfSwapped(s, k) {
    }
    forall w | 0 <= w < |s.workers| ensures CarriesOk(s', s'.workers[w]) {
      assert CarriesOk(s, s.workers[w]);
    }
  }

  lemma NextKeepsInv(s: State, s': State)
    requires Inv(s) && Next(s, s')
    ensures Inv(s') && |s'.workers| == |s.workers| && |s'.target| == |s.target|
    ensures s'.swaps + |Inverted(s'.target)| <= s.swaps + |Inverted(s.target)|
  {
    if WorkerStep(s, s') {
      var w: nat, low: nat, high: nat :| CanAct(s, w, low, high) && s' == Act(s, w, low, high);
      ActKeepsInv(s, w, low, high);
    } else {
      ManagerKeepsInv(s, s');
    }
  }

  // ----- results about whole runs

  ghost predicate Begins(s: State) {
    Init(s) && Stocked(s.shelves)
  }

  ghost predicate IsRun(run: seq<State>) {
    Runs.IsRun(Begins, Next, run)
  }

  lemma InvIsInductive()
    ensures Runs.Inductive(Begins, Next, Inv)
  {
    forall s | Begins(s) ensures Inv(s) { InvInit(s); }
    forall s, s' | Inv(s) && Next(s, s') ensures Inv(s') { NextKeepsInv(s, s'); }
  }

  lemma SafetyInEveryRun(run: seq<State>, i: nat)
    requires IsRun(run) && i < |run|
    ensures Inv(run[i])
  {
    InvIsInductive();
    Runs.InvariantHolds(Begins, Next, Inv, run, i);
  }

  // Whenever no swap is half done, the shelves hold 1, ..., n, each once, whatever
  // the workers have done so far; and a shelf a worker holds is never seen torn.
  lemma ShelvesAreAPermutation(run: seq<State>, i: nat)
    requires IsRun(run) && i < |run|
    requires forall w :: 0 <= w < |run[i].workers| ==> run[i].workers[w].pc != SwapLow
    ensures Stocked(run[i].shelves)
  {
    SafetyInEveryRun(run, i);
    assert run[i].shelves == run[i].target;
  }

  // Whatever the other workers do: when a worker is about to unlock its pair of
  // shelves, the pair is in order.
  lemma PairIsInOrder(run: seq<State>, i: nat, w: nat)
    requires IsRun(run) && i < |run| && w < |run[i].workers| && run[i].workers[w].pc == UnlockHigh
    ensures var s, x := run[i], run[i].workers[w];
      x.low < x.high < |s.shelves| && s.shelves[x.low] <= s.shelves[x.high]
  {
    SafetyInEveryRun(run, i);
    assert CarriesOk(run[i], run[i].workers[w]);
  }

  // Worker w has this pair of shelves, which held a and b when it had locked them both.
  predicate Sorting(s: State, w: nat, low: nat, high: nat, a: int, b: int) {
    && w < |s.workers| && low < high < |s.shelves|
    && var x := s.workers[w];
       && x.low == low && x.high == high && (HoldsHigh(x) || x.pc == UnlockLow)
       && match x.pc
          case Compare => s.shelves[low] == a && s.shelves[high] == b
          case SwapHigh => a > b && s.shelves[low] == a && s.shelves[high] == b
          case SwapLow => a > b && x.tmp == b && s.shelves[high] == a
          case UnlockHigh => if a > b then s.shelves[low] == b && s.shelves[high] == a
                             else s.shelves[low] == a && s.shelves[high] == b
          case _ => true
  }

  predicate InRound(s: State, w: nat) {
    w < |s.workers| && HasPair(s.workers[w])
  }

  lemma OwnActionSorts(s: State, w: nat, l: nat, h: nat, low: nat, high: nat, a: int, b: int)
    requires CanAct(s, w, l, h) && Sorting(s, w, low, high, a, b) && InRound(Act(s, w, l, h), w)
    ensures Sorting(Act(s, w, l, h), w, low, high, a, b)
  {
  }

  lemma OtherActionSorts(s: State, v: nat, l: nat, h: nat, w: nat, low: nat, high: nat, a: int, b: int)
    requires LocksOk(s) && CanAct(s, v, l, h) && v != w && Sorting(s, w, low, high, a, b)
    ensures Sorting(Act(s, v, l, h), w, low, high, a, b)
  {
    if s.workers[v].pc in {SwapHigh, SwapLow} && HoldsHigh(s.workers[w]) {
      PairsApart(s, v, w);
    }
  }

  lemma StepSorts(s: State, s': State, w: nat, low: nat, high: nat, a: int, b: int)
    requires LocksOk(s) && Next(s, s') && Sorting(s, w, low, high, a, b) && InRound(s', w)
    ensures Sorting(s', w, low, high, a, b)
  {
    if v: nat, l: nat, h: nat :| CanAct(s, v, l, h) && s' == Act(s, v, l, h) {
      if v == w {
        OwnActionSorts(s, w, l, h, low, high, a, b);
      } else {
        OtherActionSorts(s, v, l, h, w, low, high, a, b);
      }
    }
  }

  ghost predicate InRoundFrom(run: seq<State>, w: nat, j: nat, l: nat) {
    j <= l < |run| && forall m :: j <= m <= l ==> InRound(run[m], w)
  }

  lemma StepKeepsPair(s: State, s': State, w: nat)
    requires Next(s, s') && InRound(s, w) && InRound(s', w)
    ensures s'.workers[w].low == s.workers[w].low && s'.workers[w].high == s.workers[w].high
  {
  }

  // A worker keeps the pair it has picked until the end of its round.
  lemma {:induction false} PairIsKept(run: seq<State>, w: nat, j: nat, l: nat)
    requires IsRun(run) && InRoundFrom(run, w, j, l)
    ensures InRound(run[j], w) && InRound(run[l], w)
    ensures run[l].workers[w].low == run[j].workers[w].low && run[l].workers[w].high == run[j].workers[w].high
    decreases l
  {
    if j < l {
      PairIsKept(run, w, j, l - 1);
      assert InRound(run[l], w);
      assert Runs.StepAt(Next, run, l - 1);
      StepKeepsPair(run[l - 1], run[l], w);
    }
  }

  lemma {:induction false} SortsOn(
      run: seq<State>, w: nat, k: nat, l: nat, low: nat, high: nat, a: int, b: int)
    requires IsRun(run) && InRoundFrom(run, w, k, l) && Sorting(run[k], w, low, high, a, b)
    ensures Sorting(run[l], w, low, high, a, b)
    decreases l
  {
    if k < l {
      SortsOn(run, w, k, l - 1, low, high, a, b);
      assert InRound(run[l], w);
      SortsInStep(run, w, l - 1, low, high, a, b);
    }
  }

  lemma SortsInStep(run: seq<State>, w: nat, m: nat, low: nat, high: nat, a: int, b: int)
    requires IsRun(run) && m < |run| - 1 && Sorting(run[m], w, low, high, a, b) && InRound(run[m + 1], w)
    ensures Sorting(run[m + 1], w, low, high, a, b)
  {
    SafetyInEveryRun(run, m);
    assert Runs.StepAt(Next, run, m);
    StepSorts(run[m], run[m + 1], w, low, high, a, b);
  }

  predicate IsAt(s: State, w: nat, pc: Pc) {
    w < |s.workers| && s.workers[w].pc == pc
  }

  // A round leaves the smaller of the two values that it found on the lower of the
  // shelves drawn, and the larger on the higher one, whatever the others do meanwhile.
  lemma RoundSortsPair(run: seq<State>, w: nat, j: nat, k: nat, l: nat, low: nat, high: nat)
    requires IsRun(run) && 0 < j <= k <= l && InRoundFrom(run, w, j, l)
    requires IsAt(run[j - 1], w, Pick) && CanAct(run[j - 1], w, low, high) && run[j] == Act(run[j - 1], w, low, high)
    requires IsAt(run[k], w, Compare) && IsAt(run[l], w, UnlockHigh)
    ensures low < high < |run[k].shelves| && |run[l].shelves| == |run[k].shelves|
    ensures var a, b := run[k].shelves[low], run[k].shelves[high];
      run[l].shelves[low] == (if a > b then b else a) && run[l].shelves[high] == (if a > b then a else b)
  {
    PairIsKept(run, w, j, k);
    SafetyInEveryRun(run, k);
    SortsOn(run, w, k, l, low, high, run[k].shelves[low], run[k].shelves[high]);
    SizeIsKept(run, k);
    SizeIsKept(run, l);
  }

  lemma {:induction false} SizeIsKept(run: seq<State>, i: nat)
    requires IsRun(run) && i < |run|
    ensures |run[i].shelves| == |run[0].shelves|
  {
    if i > 0 {
      SizeIsKept(run, i - 1);
      assert Runs.StepAt(Next, run, i - 1);
    }
  }

  // What is left of the swaps that can ever begin, and those that have begun.
  function Potential(s: State): int {
    s.swaps + |Inverted(s.target)|
  }

  function Size(s: State): int { |s.target| }

  lemma PotentialNeverRises()
    ensures Runs.NeverRaises(Next, Inv, Potential) && Runs.Keeps(Next, Inv, Size)
  {
    forall s, s' | Inv(s) && Next(s, s') ensures Potential(s') <= Potential(s) && Size(s') == Size(s) {
      NextKeepsInv(s, s');
    }
  }

  // Every swap that begins is paid for by an inversion.
  lemma SwapsArePaidFor(run: seq<State>, i: nat)
    requires IsRun(run) && i < |run|
    ensures Potential(run[i]) <= Potential(run[0]) && Size(run[i]) == Size(run[0])
  {
    InvIsInductive();
    PotentialNeverRises();
    Runs.NeverAbove(Begins, Next, Inv, Potential, run, 0, i);
    Runs.Conserved(Begins, Next, Inv, Size, run, i);
  }

  // However many workers there are, the swaps begun in a run never exceed the
  // inversions at its start, and so never n * (n - 1) / 2.
  lemma SwapsAreBounded(run: seq<State>, i: nat)
    requires IsRun(run) && i < |run|
    ensures run[i].swaps <= |Inverted(run[0].shelves)| <= |run[0].shelves| * (|run[0].shelves| - 1) / 2
  {
    SwapsArePaidFor(run, i);
    InversionsBound(run[0].shelves);
  }

  // Once sorted, always sorted: a shelf array that is in order (with no swap half
  // done) is never written again.
  lemma SortedIsStable(s: State, s': State)
    requires Inv(s) && Next(s, s') && Sorted(s.target)
    ensures s'.target == s.target && s'.swaps == s.swaps
    ensures s.shelves == s.target ==> s'.shelves == s.shelves
  {
    if WorkerStep(s, s') {
      var w: nat, low: nat, high: nat :| CanAct(s, w, low, high) && s' == Act(s, w, low, high);
      var x := s.workers[w];
      assert CarriesOk(s, x);
      if x.pc == SwapHigh {
        SwapHighKeepsShelves(s, w, low, high);
        assert false;
      }
      if x.pc == SwapLow && s.shelves == s.target {
        assert s.shelves[x.low := x.tmp] == s.shelves;
      }
    }
  }

  // Zero when the shelves are a, in order and with no swap half done, after this
  // many swaps; one otherwise.
  ghost function Disturbed(a: seq<int>, swaps: nat): State -> int {
    (s: State) => if s.shelves == a && s.target == a && s.swaps == swaps then 0 else 1
  }

  lemma RestIsKept(s: State, s': State, a: seq<int>, swaps: nat)
    requires Inv(s) && Next(s, s') && Sorted(a)
    ensures Disturbed(a, swaps)(s') <= Disturbed(a, swaps)(s)
  {
    if s.shelves == a && s.target == a {
      SortedIsStable(s, s');
    }
  }

  lemma RestIsNeverDisturbed(a: seq<int>, swaps: nat)
    requires Sorted(a)
    ensures Runs.NeverRaises(Next, Inv, Disturbed(a, swaps))
  {
    forall s, s' | Inv(s) && Next(s, s') ensures Disturbed(a, swaps)(s') <= Disturbed(a, swaps)(s) {
      RestIsKept(s, s', a, swaps);
    }
  }

  lemma SortedStaysSorted(run: seq<State>, i: nat, j: nat)
    requires IsRun(run) && i <= j < |run|
    requires run[i].shelves == run[i].target && Sorted(run[i].shelves)
    ensures run[j].shelves == run[i].shelves == run[j].target && run[j].swaps == run[i].swaps
  {
    var a, swaps := run[i].shelves, run[i].swaps;
    InvIsInductive();
    RestIsNeverDisturbed(a, swaps);
    Runs.NeverAbove(Begins, Next, Inv, Disturbed(a, swaps), run, i, j);
  }

  // ----- deadlock freedom

  // Worker w waits for shelf k, which is taken.
  predicate WaitsFor(s: State, w: nat, k: nat) {
    && w < |s.workers| && k < |s.owner| && s.owner[k] != Free
    && var x := s.workers[w]; (x.pc == WantLow && x.low == k) || (x.pc == WantHigh && x.high == k)
  }

  ghost predicate SomeWorkerCanAct(s: State) {
    exists w: nat, low: nat, high: nat :: CanAct(s, w, low, high)
  }

  // Mutexes are taken low first, so a chain of waiting workers climbs the shelves
  // and ends with a worker that can go on.
  lemma {:induction false} ChainEnds(s: State, w: nat, k: nat)
    requires LocksOk(s) && WaitsFor(s, w, k)
    ensures SomeWorkerCanAct(s)
    decreases |s.owner| - k
  {
    var u := s.owner[k].id;
    assert OwnerMatches(s, u, k);
    var y := s.workers[u];
    if y.pc == WantHigh && s.owner[y.high] != Free {
      ChainEnds(s, u, y.high);
    } else {
      assert CanAct(s, u, 0, 0);
    }
  }

  // While a worker is unfinished, some worker can act, or the manager is inside its
  // critical section and can leave it.
  lemma NoDeadlock(s: State)
    requires Inv(s) && |s.shelves| >= 2
    requires exists w :: 0 <= w < |s.workers| && s.workers[w].pc != Done
    ensures SomeWorkerCanAct(s) || (s.manager == MDecide && exists s' :: ManagerStep(s, s'))
  {
    var w :| 0 <= w < |s.workers| && s.workers[w].pc != Done;
    var x := s.workers[w];
    if WaitsFor(s, w, x.low) {
      ChainEnds(s, w, x.low);
    } else if WaitsFor(s, w, x.high) {
      ChainEnds(s, w, x.high);
    } else if x.pc in {WantControl, WantReport} && s.control == Manager {
      assert ManagerStep(s, s.(manager := MDone, control := Free, running := false));
    } else if x.pc in {WantControl, WantReport} && s.control.Worker? {
      assert CanAct(s, s.control.id, 0, 0);
    } else {
      assert CanAct(s, w, 0, 1);
    }
  }

  // The actions a worker has still to take, at most.
  function StepsLeft(x: WorkerState): int {
    var loops := if x.round < ROUNDS then ROUNDS - x.round else 1;
    match x.pc
    case WantControl => 10 * loops + 2
    case CheckRunning => 10 * loops + 1
    case Pick => 10 * loops
    case WantLow => 10 * loops - 1
    case WantHigh => 10 * loops - 2
    case Compare => 10 * loops - 3
    case SwapHigh => 10 * loops - 4
    case SwapLow => 10 * loops - 5
    case UnlockHigh => 10 * loops - 6
    case UnlockLow => 10 * loops - 7
    case WantReport => 2
    case Report => 1
    case Done => 0
  }

  function Measure(s: State): int {
    SumBy(s.workers, StepsLeft)
  }

  lemma WorkerGoesOn(s: State, w: nat, low: nat, high: nat)
    requires CanAct(s, w, low, high)
    ensures StepsLeft(WorkerAfter(s, s.workers[w], low, high)) <= StepsLeft(s.workers[w]) - 1
  {
  }

  lemma ActLowersMeasure(s: State, w: nat, low: nat, high: nat)
    requires CanAct(s, w, low, high)
    ensures Measure(Act(s, w, low, high)) <= Measure(s) - 1
  {
    WorkerGoesOn(s, w, low, high);
    SumByUpdate(s.workers, StepsLeft, w, WorkerAfter(s, s.workers[w], low, high));
  }

  lemma WorkerStepsLower()
    ensures Runs.CountedLowers(Next, Inv, WorkerStep, Measure)
  {
    forall s, s' | Inv(s) && Next(s, s')
      ensures Measure(s') <= if WorkerStep(s, s') then Measure(s) - 1 else Measure(s)
    {
      if WorkerStep(s, s') {
        var w: nat, low: nat, high: nat :| CanAct(s, w, low, high) && s' == Act(s, w, low, high);
        ActLowersMeasure(s, w, low, high);
      }
    }
  }

  lemma WorkersOrManager(run: seq<State>)
    requires IsRun(run)
    ensures |run| - 1 <= Runs.CountSteps(WorkerStep, run) + Runs.CountSteps(ManagerStep, run)
  {
    forall i | 0 <= i < |run| - 1 ensures Runs.StepAt(WorkerStep, run, i) || Runs.StepAt(ManagerStep, run, i) {
      assert Runs.StepAt(Next, run, i);
    }
    Runs.CountEither(Begins, Next, WorkerStep, ManagerStep, run);
  }

  ghost function StepsOf(w: nat): (State, State) -> bool {
    (s, s') => exists low: nat, high: nat :: CanAct(s, w, low, high) && s' == Act(s, w, low, high)
  }

  function LeftOf(w: nat): State -> int {
    (s: State) => if w < |s.workers| then StepsLeft(s.workers[w]) else 0
  }

  lemma ActAndLeftOf(s: State, v: nat, low: nat, high: nat, w: nat)
    requires CanAct(s, v, low, high)
    ensures LeftOf(w)(Act(s, v, low, high)) <= if v == w then LeftOf(w)(s) - 1 else LeftOf(w)(s)
  {
    WorkerGoesOn(s, v, low, high);
  }

  lemma StepsOfLower(w: nat)
    ensures Runs.CountedLowers(Next, Inv, StepsOf(w), LeftOf(w))
  {
    forall s, s' | Inv(s) && Next(s, s')
      ensures LeftOf(w)(s') <= if StepsOf(w)(s, s') then LeftOf(w)(s) - 1 else LeftOf(w)(s)
    {
      if StepsOf(w)(s, s') {
        var low: nat, high: nat :| CanAct(s, w, low, high) && s' == Act(s, w, low, high);
        ActAndLeftOf(s, w, low, high, w);
      } else if v: nat, low: nat, high: nat :| CanAct(s, v, low, high) && s' == Act(s, v, low, high) {
        ActAndLeftOf(s, v, low, high, w);
      }
    }
  }

  // Each worker takes at most 102 actions in any run.
  lemma WorkerTakesBoundedSteps(run: seq<State>, w: nat)
    requires IsRun(run)
    ensures Runs.CountSteps(StepsOf(w), run) <= 102
  {
    InvIsInductive();
    StepsOfLower(w);
    Runs.CountBound(Begins, Next, Inv, StepsOf(w), LeftOf(w), run);
  }

  // ----- the ten rounds

  // Worker w completes a round.
  ghost function RoundsOf(w: nat): (State, State) -> bool {
    (s, s') => exists low: nat, high: nat ::
      CanAct(s, w, low, high) && s.workers[w].pc == UnlockLow && s' == Act(s, w, low, high)
  }

  function RoundOf(w: nat): State -> int {
    (s: State) => if w < |s.workers| then s.workers[w].round else 0
  }

  lemma StepAndRound(s: State, s': State, w: nat)
    requires Next(s, s')
    ensures RoundOf(w)(s') == RoundOf(w)(s) + if RoundsOf(w)(s, s') then 1 else 0
  {
    if RoundsOf(w)(s, s') {
      var low: nat, high: nat :|
        CanAct(s, w, low, high) && s.workers[w].pc == UnlockLow && s' == Act(s, w, low, high);
    } else if WorkerStep(s, s') {
      var v: nat, low: nat, high: nat :| CanAct(s, v, low, high) && s' == Act(s, v, low, high);
    }
  }

  // A worker that has left the loop has done all its rounds, or the shift has been
  // ended; one in the loop has not done them all.
  ghost predicate RoundsOk(s: State) {
    forall w :: 0 <= w < |s.workers| ==> RoundOk(s.running, s.workers[w])
  }

  predicate RoundOk(running: bool, x: WorkerState) {
    if x.pc in {WantReport, Report, Done} then x.round == 10 || (!running && x.round < 10) else x.round < 10
  }

  lemma RoundsAreInductive()
    ensures Runs.Inductive(Begins, Next, RoundsOk)
  {
    forall s, s' | RoundsOk(s) && Next(s, s') ensures RoundsOk(s') {
      if WorkerStep(s, s') {
        var v: nat, low: nat, high: nat :| CanAct(s, v, low, high) && s' == Act(s, v, low, high);
        assert RoundOk(s.running, s.workers[v]);
      }
    }
  }

  // A worker has completed as many rounds as it says, and leaves its loop after ten,
  // or earlier only when the shift has been ended.
  lemma TenRounds(run: seq<State>, w: nat)
    requires IsRun(run) && w < |run[|run| - 1].workers| && w < |run[0].workers|
    ensures var x, rounds := run[|run| - 1].workers[w], Runs.CountSteps(RoundsOf(w), run);
      && rounds == x.round <= 10
      && (x.pc in {WantReport, Report, Done} && run[|run| - 1].running ==> rounds == 10)
  {
    var n := |run| - 1;
    forall m | 0 <= m < n
      ensures RoundOf(w)(run[m + 1]) == RoundOf(w)(run[m]) + if Runs.StepAt(RoundsOf(w), run, m) then 1 else 0
    {
      assert Runs.StepAt(Next, run, m);
      StepAndRound(run[m], run[m + 1], w);
    }
    Runs.CountExactly(RoundsOf(w), RoundOf(w), run, 0, n);
    assert run[0..n + 1] == run;
    RoundsAreInductive();
    Runs.InvariantHolds(Begins, Next, RoundsOk, run, n);
    assert RoundOk(run[n].running, run[n].workers[w]);
  }

  // The shift has been ended, and worker w is not in the middle of a round.
  predicate Leaves(s: State, w: nat) {
    !s.running && w < |s.workers| && s.workers[w].pc in {WantControl, CheckRunning, WantReport, Report, Done}
  }

  lemma LeavesStep(s: State, s': State, w: nat)
    requires Next(s, s') && Leaves(s, w)
    ensures Leaves(s', w) && s'.workers[w].round == s.workers[w].round
  {
    if WorkerStep(s, s') {
      var v: nat, low: nat, high: nat :| CanAct(s, v, low, high) && s' == Act(s, v, low, high);
    }
  }

  // Once the shift has been ended, no worker begins another round.
  lemma {:induction false} NoRoundAfterTheEnd(run: seq<State>, i: nat, j: nat, w: nat)
    requires IsRun(run) && i <= j < |run| && Leaves(run[i], w)
    ensures Leaves(run[j], w) && run[j].workers[w].round == run[i].workers[w].round
    decreases j
  {
    if i < j {
      NoRoundAfterTheEnd(run, i, j - 1, w);
      assert Runs.StepAt(Next, run, j - 1);
      LeavesStep(run[j - 1], run[j], w);
    }
  }

  // So a run has at most 102 steps for each worker, besides those of the manager.
  lemma WorkersTakeBoundedSteps(run: seq<State>)
    requires IsRun(run)
    ensures |run| - 1 <= 102 * |run[0].workers| + Runs.CountSteps(ManagerStep, run)
  {
    InvIsInductive();
    WorkerStepsLower();
    Runs.CountBound(Begins, Next, Inv, WorkerStep, Measure, run);
    WorkersOrManager(run);
    SumByBounds(run[0].workers, StepsLeft, 0, 102);
    SumByBounds(run[|run| - 1].workers, StepsLeft, 0, 102);
  }

  // When no worker can act and the manager is not in its critical section, every
  // worker has finished and reported, so the manager's next check ends the shift.
  lemma QuietShopIsFinished(run: seq<State>)
    requires IsRun(run) && |run[0].shelves| >= 2
    requires var last := run[|run| - 1]; !SomeWorkerCanAct(last) && last.manager != MDecide
    ensures var last := run[|run| - 1];
      && last.reported == |last.workers|
      && forall w :: 0 <= w < |last.workers| ==> last.workers[w].pc == Done
  {
    var last := run[|run| - 1];
    SafetyInEveryRun(run, |run| - 1);
    SwapsArePaidFor(run, |run| - 1);
    forall w | 0 <= w < |last.workers| ensures last.workers[w].pc == Done {
      if last.workers[w].pc != Done {
        NoDeadlock(last);
        assert false;
      }
    }
    SumByBounds(last.workers, HasReported, 1, 1);
  }

  // ----- the shop, its shelves and control block updated in place

  // main: the shelves are filled with 1, ..., n and shuffled; "dice" stands for
  // the values of rand().
  method StockShelves(n: nat, dice: nat -> nat) returns (shelves: array<int>)
    ensures fresh(shelves) && shelves.Length == n && Stocked(shelves[..])
  {
    shelves := new int[n];
    for i := 0 to n
      invariant shelves[..i] == Iota(i)
    {
      shelves[i] := i + 1;
      assert shelves[..i + 1] == shelves[..i] + [i + 1];
    }
    assert shelves[..] == shelves[..n];
    Shuffle(shelves, dice);
  }

  method Shuffle(shelves: array<int>, dice: nat -> nat)
    modifies shelves
    ensures multiset(shelves[..]) == multiset(old(shelves[..]))
  {
    var i := shelves.Length - 1;
    while i > 0
      invariant i < shelves.Length
      invariant multiset(shelves[..]) == multiset(old(shelves[..]))
    {
      var j := dice(i) % (i + 1);
      Swap(shelves, i, j);
      i := i - 1;
    }
  }

  method Swap(shelves: array<int>, x: nat, y: nat)
    requires x < shelves.Length && y < shelves.Length
    modifies shelves
    ensures shelves[..] == Swapped(old(shelves[..]), x, y)
    ensures multiset(shelves[..]) == multiset(old(shelves[..]))
  {
    var tmp := shelves[y];
    shelves[y] := shelves[x];
    shelves[x] := tmp;
    assert shelves[..] == Swapped(old(shelves[..]), x, y);
  }

  class NightShift {
    const shelves: array<int>
    const owner: array<Holder>   // the shelf mutexes
    var running: bool
    var reported: nat
    var control: Holder
    const workers: array<WorkerState>
    var manager: ManagerPc
    ghost var target: seq<int>
    ghost var swaps: nat

    ghost function View(): State
      reads this, shelves, owner, workers
    {
      State(shelves[..], owner[..], running, reported, control, workers[..], manager, target, swaps)
    }

    constructor (shelves: array<int>, m: nat)
      ensures Init(View()) && this.shelves == shelves && workers.Length == m && fresh(owner) && fresh(workers)
    {
      this.shelves := shelves;
      owner := new Holder[shelves.Length](k => Free);
      running, reported, control, manager := true, 0, Free, MWant;
      workers := new WorkerState[m](w => Rested());
      target, swaps := shelves[..], 0;
    }

    // Worker w takes its next action at the control mutex.
    method ControlAction(w: nat)
      requires CanAct(View(), w, 0, 1)
      requires workers[w].pc in {WantControl, CheckRunning, WantReport, Report}
      modifies this, workers
      ensures View() == Act(old(View()), w, 0, 1)
    {
      var x := workers[w];
      if x.pc == WantControl {
        control := Worker(w);
        workers[w] := x.(pc := CheckRunning);
      } else if x.pc == CheckRunning {
        workers[w] := x.(pc := if running then Pick else WantReport);
        control := Free;
      } else if x.pc == WantReport {
        control := Worker(w);
        workers[w] := x.(pc := Report);
      } else {
        reported := reported + 1;
        control := Free;
        workers[w] := x.(pc := Done);
      }
    }

    // Worker w picks two shelves, or locks one of them.
    method LockAction(w: nat, low: nat, high: nat)
      requires CanAct(View(), w, low, high)
      requires workers[w].pc in {Pick, WantLow, WantHigh}
      modifies owner, workers
      ensures View() == Act(old(View()), w, low, high)
    {
      var x := workers[w];
      if x.pc == Pick {
        workers[w] := x.(pc := WantLow, low := low, high := high);
      } else if x.pc == WantLow {
        owner[x.low] := Worker(w);
        workers[w] := x.(pc := WantHigh);
      } else {
        owner[x.high] := Worker(w);
        workers[w] := x.(pc := Compare);
      }
    }

    // Worker w unlocks its higher shelf.
    method UnlockHighAction(w: nat)
      requires CanAct(View(), w, 0, 1) && workers[w].pc == UnlockHigh
      modifies owner, workers
      ensures View() == Act(old(View()), w, 0, 1)
    {
      var x := workers[w];
      owner[x.high] := Free;
      workers[w] := x.(pc := UnlockLow);
    }

    // Worker w unlocks its lower shelf, and its round is over.
    method UnlockLowAction(w: nat)
      requires CanAct(View(), w, 0, 1) && workers[w].pc == UnlockLow
      modifies owner, workers
      ensures View() == Act(old(View()), w, 0, 1)
    {
      var x := workers[w];
      owner[x.low] := Free;
      workers[w] := x.(pc := if x.round + 1 >= ROUNDS then WantReport else WantControl, round := x.round + 1);
    }

    // Worker w, holding both shelves, compares them or takes half of the swap.
    method SwapAction(w: nat)
      requires CanAct(View(), w, 0, 1) && |target| == shelves.Length
      requires workers[w].pc in {Compare, SwapHigh, SwapLow}
      modifies this, shelves, workers
      ensures View() == Act(old(View()), w, 0, 1)
    {
      var x := workers[w];
      if x.pc == Compare {
        workers[w] := x.(pc := if shelves[x.low] > shelves[x.high] then SwapHigh else UnlockHigh);
      } else if x.pc == SwapHigh {
        workers[w] := x.(pc := SwapLow, tmp := shelves[x.high]);
        shelves[x.high] := shelves[x.low];
        target, swaps := Swapped(target, x.low, x.high), swaps + 1;
      } else {
        shelves[x.low] := x.tmp;
        workers[w] := x.(pc := UnlockHigh);
      }
    }

    // The manager's scan of neighbouring shelves, while no worker changes them.
    method LooksSorted() returns (sorted: bool)
      ensures sorted <==> Inverted(shelves[..]) == {}
      ensures sorted <==> Sorted(shelves[..])
    {
      sorted := true;
      var i := 1;
      while i < shelves.Length && sorted
        invariant 1 <= i && (i <= shelves.Length || i == 1)
        invariant sorted <==> forall k :: 1 <= k < i ==> shelves[k - 1] <= shelves[k]
        invariant !sorted ==> exists k :: 1 <= k < shelves.Length && shelves[k - 1] > shelves[k]
        decreases shelves.Length - i
      {
        if shelves[i - 1] > shelves[i] {
          sorted := false;
        }
        i := i + 1;
      }
      assert sorted <==> InOrder(shelves[..]);
      NeighboursDecide(shelves[..]);
    }

    // The manager enters its critical section, or leaves it.  True is the end of its work.
    method ManagerAction() returns (ended: bool)
      requires manager == MDecide || (manager == MWant && control == Free)
      modifies this
      ensures ManagerStep(old(View()), View())
      ensures ended <==> old(manager) == MDecide && (old(reported) == workers.Length || Sorted(shelves[..]))
      ensures running == (old(running) && !ended)
    {
      ended := false;
      if manager == MWant {
        control, manager := Manager, MDecide;
        return;
      }
      var looksSorted := false;
      if reported != workers.Length {
        looksSorted := LooksSorted();
      }
      if reported == workers.Length || looksSorted {
        running, control, manager := false, Free, MDone;
        ended := true;
      } else {
        control, manager := Free, MWant;
      }
    }
  }
}
