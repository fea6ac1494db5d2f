// The dining philosophers of deadlocks/code/dining_philosophers.c, for any
// number of philosophers and iterations.  Philosopher i waits on semaphore i
// and then on semaphore (i + 1) % N, so the program can deadlock; the one shape
// a deadlock can have is proved here.
module Philosophers {
  import Runs
  import opened Sums

  datatype Pc =
    | WaitLeft     // sem_wait(left)
    | WaitRight    // sem_wait(right), holding left
    | PostRight    // eats, then sem_post(right)
    | PostLeft     // sem_post(left)
    | Done

  // "rounds" counts the iterations not yet completed, the current one included.
  datatype Philosopher = Philosopher(pc: Pc, rounds: nat)

  datatype State = State(chopsticks: seq<int>, phils: seq<Philosopher>)

  function Begin(rounds: nat): Philosopher {
    Philosopher(if rounds == 0 then Done else WaitLeft, rounds)
  }

  ghost predicate Init(s: State) {
    && |s.chopsticks| == |s.phils|
    && (forall i :: 0 <= i < |s.phils| ==> s.chopsticks[i] == 1)
    && (forall i :: 0 <= i < |s.phils| ==> s.phils[i] == Begin(s.phils[i].rounds))
  }

  // The index of the right chopstick of philosopher i among n.
  function RightOf(i: nat, n: nat): nat
    requires i < n
  {
    (i + 1) % n
  }

  // The philosopher whose right chopstick is i.
  function LeftNeighbour(i: nat, n: nat): (j: nat)
    requires i < n
    ensures j < n && RightOf(j, n) == i
    ensures forall k: nat :: k < n && RightOf(k, n) == i ==> k == j
  {
    RightOfCases(n);
    if i == 0 then n - 1 else i - 1
  }

  lemma RightOfCases(n: nat)
    requires n > 0
    ensures forall k: nat :: k < n ==> RightOf(k, n) == if k + 1 == n then 0 else k + 1
  {
  }

  // Philosopher i can perform its next semaphore operation.
  predicate CanAct(s: State, i: nat)
    requires |s.chopsticks| == |s.phils|
  {
    && i < |s.phils|
    && match s.phils[i].pc
       case WaitLeft => s.chopsticks[i] > 0
       case WaitRight => s.chopsticks[RightOf(i, |s.phils|)] > 0
       case Done => false
       case _ => true
  }

  function Act(s: State, i: nat): State
    requires |s.chopsticks| == |s.phils| && CanAct(s, i)
  {
    var p, r := s.phils[i], RightOf(i, |s.phils|);
    match p.pc
    case WaitLeft =>
      State(s.chopsticks[i := s.chopsticks[i] - 1], s.phils[i := p.(pc := WaitRight)])
    case WaitRight =>
      State(s.chopsticks[r := s.chopsticks[r] - 1], s.phils[i := p.(pc := PostRight)])
    case PostRight =>
      State(s.chopsticks[r := s.chopsticks[r] + 1], s.phils[i := p.(pc := PostLeft)])
    case PostLeft =>
      State(s.chopsticks[i := s.chopsticks[i] + 1], s.phils[i := Begin(if p.rounds == 0 then 0 else p.rounds - 1)])
  }

  ghost predicate Next(s: State, s': State) {
    |s.chopsticks| == |s.phils| && exists i: nat :: CanAct(s, i) && s' == Act(s, i)
  }

  // ----- the invariant: every chopstick is on the table or in one hand

  predicate HasLeft(p: Philosopher) { p.pc in {WaitRight, PostRight, PostLeft} }

  predicate HasRight(p: Philosopher) { p.pc == PostRight }

  predicate ChopstickPlace(s: State, i: nat)
    requires |s.chopsticks| == |s.phils| && i < |s.phils|
  {
    s.chopsticks[i] + (if HasLeft(s.phils[i]) then 1 else 0)
      + (if HasRight(s.phils[LeftNeighbour(i, |s.phils|)]) then 1 else 0) == 1
  }

  ghost predicate Inv(s: State) {
    && |s.chopsticks| == |s.phils|
    && (forall i :: 0 <= i < |s.phils| ==> 0 <= s.chopsticks[i] && ChopstickPlace(s, i))
    && (forall i :: 0 <= i < |s.phils| ==> (s.phils[i].rounds == 0 <==> s.phils[i].pc == Done))
  }

  lemma ActKeepsPlace(s: State, i: nat, k: nat)
    requires Inv(s) && CanAct(s, i) && k < |s.phils|
    ensures 0 <= Act(s, i).chopsticks[k] && ChopstickPlace(Act(s, i), k)
  {
    var n := |s.phils|;
    assert ChopstickPlace(s, k);
    assert LeftNeighbour(k, n) == i <==> k == RightOf(i, n);
  }

  lemma NextKeepsInv(s: State, s': State)
    requires Inv(s) && Next(s, s')
    ensures Inv(s')
  {
    var i: nat :| CanAct(s, i) && s' == Act(s, i);
    forall k | 0 <= k < |s.phils| ensures 0 <= s'.chopsticks[k] && ChopstickPlace(s', k) {
      ActKeepsPlace(s, i, k);
    }
  }

  ghost predicate IsRun(run: seq<State>) {
    Runs.IsRun(Init, Next, run)
  }

  lemma InvIsInductive()
    ensures Runs.Inductive(Init, Next, Inv)
  {
    forall s | Init(s) ensures Inv(s) {}
    forall s, s' | Inv(s) && Next(s, s') ensures Inv(s') { NextKeepsInv(s, s'); }
  }

  lemma SafetyInEveryRun(run: seq<State>, i: nat)
    requires IsRun(run) && i < |run|
    ensures Inv(run[i])
  {
    InvIsInductive();
    Runs.InvariantHolds(Init, Next, Inv, run, i);
  }

  // Two neighbours never eat together.
  lemma NeighboursExclude(run: seq<State>, k: nat, i: nat)
    requires IsRun(run) && k < |run| && i < |run[k].phils|
    ensures HasRight(run[k].phils[i]) ==> !HasLeft(run[k].phils[RightOf(i, |run[k].phils|)])
  {
    SafetyInEveryRun(run, k);
    var s, n := run[k], |run[k].phils|;
    assert LeftNeighbour(RightOf(i, n), n) == i;
    assert ChopstickPlace(s, RightOf(i, n));
  }

  // ----- deadlock

  predicate AllDone(s: State) {
    forall i :: 0 <= i < |s.phils| ==> s.phils[i].pc == Done
  }

  // Nobody can do anything.
  ghost predicate Stuck(s: State)
    requires |s.chopsticks| == |s.phils|
  {
    forall i: nat :: !CanAct(s, i)
  }

  // Everybody holds exactly the left chopstick and waits for the right one.
  predicate AllHoldLeft(s: State) {
    forall i :: 0 <= i < |s.phils| ==> s.phils[i].pc == WaitRight
  }

  // In a stuck state a philosopher that waits for its right chopstick sees its
  // right neighbour do the same.
  lemma WaitingSpreadsRight(s: State, i: nat)
    requires Inv(s) && Stuck(s) && i < |s.phils| && s.phils[i].pc == WaitRight
    ensures s.phils[RightOf(i, |s.phils|)].pc == WaitRight
  {
    var n, r := |s.phils|, RightOf(i, |s.phils|);
    assert !CanAct(s, i) && !CanAct(s, r);
    assert LeftNeighbour(r, n) == i;
    assert ChopstickPlace(s, r);
  }

  lemma {:induction false} WaitingSpreadsTo(s: State, i: nat, k: nat)
    requires Inv(s) && Stuck(s) && i <= k < |s.phils| && s.phils[i].pc == WaitRight
    ensures s.phils[k].pc == WaitRight
  {
    if i < k {
      WaitingSpreadsTo(s, i, k - 1);
      WaitingSpreadsRight(s, k - 1);
      RightOfCases(|s.phils|);
    }
  }

  // A reachable state with unfinished philosophers is stuck if and only if
  // every philosopher holds exactly its left chopstick.
  lemma StuckIffAllHoldLeft(s: State)
    requires Inv(s) && !AllDone(s)
    ensures Stuck(s) <==> AllHoldLeft(s)
  {
    var n := |s.phils|;
    if Stuck(s) {
      var i :| 0 <= i < n && s.phils[i].pc != Done;
      // It does not wait for its left chopstick: whoever has that one as its right
      // chopstick could put it down.
      assert !CanAct(s, i) && !CanAct(s, LeftNeighbour(i, n));
      assert ChopstickPlace(s, i);
      forall k | 0 <= k < n ensures s.phils[k].pc == WaitRight {
        // Round the table: from i up to n - 1, on to 0, and up to k.
        WaitingSpreadsTo(s, i, n - 1);
        WaitingSpreadsRight(s, n - 1);
        RightOfCases(n);
        WaitingSpreadsTo(s, 0, k);
      }
    }
    if AllHoldLeft(s) {
      forall i: nat ensures !CanAct(s, i) {
        if i < n {
          var r := RightOf(i, n);
          assert ChopstickPlace(s, r);
        }
      }
    }
  }

  // Philosophers 0..k hold their left chopsticks, the others have done nothing.
  ghost function Grabbed(n: nat, rounds: nat, k: nat): State
    requires k <= n
  {
    State(seq(n, i => if i < k then 0 else 1),
          seq(n, i => Philosopher(if i < k then WaitRight else WaitLeft, rounds)))
  }

  // The deadlock is reachable for every number of philosophers that have
  // something to do: let each take its left chopstick in turn.
  lemma {:induction false} DeadlockReachable(n: nat, rounds: nat, k: nat) returns (run: seq<State>)
    requires rounds > 0 && k <= n
    ensures IsRun(run) && |run| == k + 1 && run[k] == Grabbed(n, rounds, k)
    ensures k == n ==> AllHoldLeft(run[k])
  {
    var s := Grabbed(n, rounds, k);
    if k == 0 {
      run := [s];
    } else {
      var front := DeadlockReachable(n, rounds, k - 1);
      var before := front[k - 1];
      assert CanAct(before, k - 1);
      assert s == Act(before, k - 1) by {
        assert s.chopsticks == before.chopsticks[k - 1 := 0];
        assert s.phils == before.phils[k - 1 := s.phils[k - 1]];
      }
      Runs.Extend(Init, Next, front, s);
      run := front + [s];
    }
  }

  // ----- termination

  // The semaphore operations a philosopher has still to perform.
  function OperationsLeft(p: Philosopher): int {
    4 * p.rounds - (match p.pc case WaitRight => 1 case PostRight => 2 case PostLeft => 3 case _ => 0)
  }

  function Measure(s: State): int {
    SumBy(s.phils, OperationsLeft)
  }

  lemma ActLowersMeasure(s: State, i: nat)
    requires Inv(s) && CanAct(s, i)
    ensures Measure(Act(s, i)) == Measure(s) - 1
  {
    SumByUpdate(s.phils, OperationsLeft, i, Act(s, i).phils[i]);
    assert Act(s, i).phils == s.phils[i := Act(s, i).phils[i]];
  }

  lemma NextLowersMeasure(s: State, s': State)
    requires Inv(s) && Next(s, s')
    ensures Measure(s') == Measure(s) - 1
  {
    var i: nat :| CanAct(s, i) && s' == Act(s, i);
    ActLowersMeasure(s, i);
  }

  // Every run is finite, and one that cannot go on has either served every
  // philosopher to the end or is the deadlock above.
  lemma MaximalRunsFinishOrDeadlock(run: seq<State>)
    requires IsRun(run)
    ensures |run| - 1 <= SumBy(run[0].phils, OperationsLeft)
    ensures var last := run[|run| - 1];
      |last.chopsticks| == |last.phils| && (Stuck(last) <==> AllDone(last) || AllHoldLeft(last))
  {
    var last := run[|run| - 1];
    SafetyInEveryRun(run, |run| - 1);
    if !AllDone(last) {
      StuckIffAllHoldLeft(last);
    }
    RunLength(run);
  }

  lemma {:induction false} RunLength(run: seq<State>)
    requires IsRun(run)
    ensures |run| - 1 == Measure(run[0]) - Measure(run[|run| - 1])
    ensures 0 <= Measure(run[|run| - 1])
  {
    var n := |run| - 1;
    SafetyInEveryRun(run, n);
    if |run[n].phils| > 0 {
      SumByAtLeast(run[n].phils, OperationsLeft, 0);
    }
    if n > 0 {
      Runs.Prefix(Init, Next, run);
      RunLength(run[..n]);
      SafetyInEveryRun(run, n - 1);
      assert Runs.StepAt(Next, run, n - 1);
      NextLowersMeasure(run[n - 1], run[n]);
    }
  }

  // ----- the semaphores and the table, updated in place

  class Table {
    const chopsticks: array<int>
    const phils: array<Philosopher>

    ghost predicate Valid()
      reads this
    {
      chopsticks != phils as object && chopsticks.Length == phils.Length
    }

    ghost function View(): State
      reads this, chopsticks, phils
    {
      State(chopsticks[..], phils[..])
    }

    constructor (n: nat, iterations: nat)
      ensures Valid() && fresh(chopsticks) && fresh(phils) && phils.Length == n
      ensures Init(View()) && forall i :: 0 <= i < n ==> phils[i].rounds == iterations
    {
      chopsticks := new int[n](i => 1);
      phils := new Philosopher[n](i => Begin(iterations));
    }

    // Philosopher i performs its next semaphore operation.
    method Perform(i: nat)
      requires Valid() && CanAct(View(), i)
      modifies chopsticks, phils
      ensures View() == Act(old(View()), i)
    {
      var left, right := i, (i + 1) % phils.Length;
      var p := phils[i];
      match p.pc {
        case WaitLeft =>
          chopsticks[left] := chopsticks[left] - 1;
          phils[i] := p.(pc := WaitRight);
        case WaitRight =>
          chopsticks[right] := chopsticks[right] - 1;
          phils[i] := p.(pc := PostRight);
        case PostRight =>
          chopsticks[right] := chopsticks[right] + 1;
          phils[i] := p.(pc := PostLeft);
        case PostLeft =>
          chopsticks[left] := chopsticks[left] + 1;
          phils[i] := Begin(if p.rounds == 0 then 0 else p.rounds - 1);
        case Done =>
          assert false;
      }
    }
  }
}
