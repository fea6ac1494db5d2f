// The three-valued futex mutex of sync/code/futex.c, used by any number of
// incrementer and decrementer threads.  The lock word is 0 (free), 1 (locked)
// or 2 (locked, somebody may sleep); in the middle of an unlock it also reads
// 1 while nobody owns the lock.
module Futex {
  import Runs
  import opened Sums

  datatype Kind = Incrementer | Decrementer

  // The atomic action a thread performs next.
  datatype Pc =
    | CompareExchange       // lock: the fast path
    | Exchange              // lock: atomic_exchange(&state, 2)
    | FutexWait             // lock: the FUTEX_WAIT call, which compares and sleeps atomically
    | Asleep                // in the kernel's wait list
    | LoadCounter           // critical section, first half of (*counter)++ or (*counter)--
    | StoreCounter          // critical section, second half
    | FetchSub              // unlock: atomic_fetch_sub(&state, 1)
    | StoreZero             // unlock: atomic_store(&state, 0)
    | FutexWake             // unlock: the FUTEX_WAKE call for one waiter
    | Done

  // "left" counts the loop iterations not yet completed, the current one included.
  datatype Thread = Thread(kind: Kind, left: nat, pc: Pc, loaded: int)

  datatype State = State(word: int, counter: int, threads: seq<Thread>)

  function Start(kind: Kind, iterations: nat): Thread {
    Thread(kind, iterations, if iterations == 0 then Done else CompareExchange, 0)
  }

  ghost predicate Init(s: State) {
    && s.word == 0
    && forall t :: 0 <= t < |s.threads| ==> s.threads[t] == Start(s.threads[t].kind, s.threads[t].left)
  }

  function Delta(kind: Kind): int {
    match kind case Incrementer => 1 case Decrementer => -1
  }

  // The loop in incrementer/decrementer goes round, or ends.
  function NextIteration(th: Thread): Thread {
    Start(th.kind, if th.left == 0 then 0 else th.left - 1)
  }

  function Sleepers(s: State): set<nat> {
    set t: nat | 0 <= t < |s.threads| && s.threads[t].pc == Asleep
  }

  // Thread t can act; w is the sleeper that its wake call releases (t itself
  // when there is none to release).
  predicate CanAct(s: State, t: nat, w: nat) {
    && t < |s.threads|
    && s.threads[t].pc !in {Asleep, Done}
    && w < |s.threads|
    && if s.threads[t].pc == FutexWake && Sleepers(s) != {} then w in Sleepers(s) else w == t
  }

  // The acting thread after its action.
  function ActorAfter(s: State, th: Thread): Thread {
    match th.pc
    case CompareExchange => th.(pc := if s.word == 0 then LoadCounter else Exchange)
    case Exchange => th.(pc := if s.word != 0 then FutexWait else LoadCounter)
    case FutexWait => th.(pc := if s.word == 2 then Asleep else Exchange)
    case LoadCounter => th.(pc := StoreCounter, loaded := s.counter)
    case StoreCounter => th.(pc := FetchSub)
    case FetchSub => if s.word != 1 then th.(pc := StoreZero) else NextIteration(th)
    case StoreZero => th.(pc := FutexWake)
    case FutexWake => NextIteration(th)
    case _ => th
  }

  function WordAfter(word: int, pc: Pc): int {
    match pc
    case CompareExchange => if word == 0 then 1 else word
    case Exchange => 2
    case FetchSub => word - 1
    case StoreZero => 0
    case _ => word
  }

  function CounterAfter(counter: int, th: Thread): int {
    if th.pc == StoreCounter then th.loaded + Delta(th.kind) else counter
  }

  // The threads after sleeper w, if it is not t, has been released.
  function Released(threads: seq<Thread>, t: nat, w: nat): seq<Thread>
    requires w < |threads|
  {
    if w == t then threads else threads[w := threads[w].(pc := Exchange)]
  }

  // One atomic action of thread t.
  function Act(s: State, t: nat, w: nat): State
    requires t < |s.threads| && w < |s.threads|
  {
    var th := s.threads[t];
    State(WordAfter(s.word, th.pc), CounterAfter(s.counter, th), Released(s.threads, t, w)[t := ActorAfter(s, th)])
  }

  // A sleeping thread may return from FUTEX_WAIT without having been woken.
  predicate CanWakeSpuriously(s: State, t: nat) {
    t < |s.threads| && s.threads[t].pc == Asleep
  }

  function WakeSpuriously(s: State, t: nat): State
    requires CanWakeSpuriously(s, t)
  {
    s.(threads := s.threads[t := s.threads[t].(pc := Exchange)])
  }

  ghost predicate Progress(s: State, s': State) {
    exists t: nat, w: nat :: CanAct(s, t, w) && s' == Act(s, t, w)
  }

  ghost predicate Spurious(s: State, s': State) {
    exists t: nat :: CanWakeSpuriously(s, t) && s' == WakeSpuriously(s, t)
  }

  ghost predicate Next(s: State, s': State) {
    Progress(s, s') || Spurious(s, s')
  }

  // ----- the invariant

  // A thread that owns the lock, or has given it up with the word still non-zero.
  predicate Holds(th: Thread) {
    th.pc in {LoadCounter, StoreCounter, FetchSub, StoreZero}
  }

  // A thread whose next actions keep the sleepers from being forgotten.
  predicate Rescuer(th: Thread) {
    th.pc in {StoreZero, FutexWake, Exchange}
  }

  ghost predicate MutualExclusion(s: State) {
    && s.word in {0, 1, 2}
    && (forall t, u | 0 <= t < |s.threads| && 0 <= u < |s.threads| ::
          Holds(s.threads[t]) && Holds(s.threads[u]) ==> t == u)
    && (s.word != 0 <==> exists t :: 0 <= t < |s.threads| && Holds(s.threads[t]))
  }

  ghost predicate NoLostWakeup(s: State) {
    (exists t :: 0 <= t < |s.threads| && s.threads[t].pc == Asleep) ==>
      s.word == 2 || exists u :: 0 <= u < |s.threads| && Rescuer(s.threads[u])
  }

  ghost predicate ThreadOk(s: State, th: Thread) {
    && (th.left == 0 <==> th.pc == Done)
    && (th.pc == StoreCounter ==> th.loaded == s.counter)
  }

  ghost predicate Inv(s: State) {
    && MutualExclusion(s)
    && NoLostWakeup(s)
    && forall t :: 0 <= t < |s.threads| ==> ThreadOk(s, s.threads[t])
  }

  lemma InvInit(s: State)
    requires Init(s)
    ensures Inv(s)
  {
  }

  lemma ActKeepsExclusion(s: State, t: nat, w: nat)
    requires Inv(s) && CanAct(s, t, w)
    ensures MutualExclusion(Act(s, t, w))
    ensures forall u :: 0 <= u < |s.threads| ==> ThreadOk(Act(s, t, w), Act(s, t, w).threads[u])
  {
    var s' := Act(s, t, w);
    if Holds(s.threads[t]) {
      assert s.word != 0;
    }
    if s'.word != 0 && Holds(s.threads[t]) && !Holds(s'.threads[t]) {
      assert false;
    }
    if s'.word != 0 && !Holds(s'.threads[t]) {
      assert s.word != 0;
      var u :| 0 <= u < |s.threads| && Holds(s.threads[u]);
      assert Holds(s'.threads[u]);
    }
  }

  lemma ActKeepsWakeups(s: State, t: nat, w: nat)
    requires Inv(s) && CanAct(s, t, w)
    ensures NoLostWakeup(Act(s, t, w))
  {
    var s' := Act(s, t, w);
    if exists u :: 0 <= u < |s'.threads| && s'.threads[u].pc == Asleep {
      if s.threads[t].pc == FutexWake {
        var u :| 0 <= u < |s'.threads| && s'.threads[u].pc == Asleep;
        assert u in Sleepers(s);
        assert Rescuer(s'.threads[w]);
      } else if s'.word != 2 && !Rescuer(s'.threads[t]) {
        var u :| 0 <= u < |s'.threads| && s'.threads[u].pc == Asleep;
        assert s.threads[u].pc == Asleep;
        var r :| 0 <= r < |s.threads| && Rescuer(s.threads[r]);
        assert Rescuer(s'.threads[r]);
      }
    }
  }

  lemma SpuriousKeepsInv(s: State, t: nat)
    requires Inv(s) && CanWakeSpuriously(s, t)
    ensures Inv(WakeSpuriously(s, t))
  {
    var s' := WakeSpuriously(s, t);
    assert Rescuer(s'.threads[t]);
    if u :| 0 <= u < |s.threads| && Holds(s.threads[u]) {
      assert Holds(s'.threads[u]);
    }
  }

  lemma NextKeepsInv(s: State, s': State)
    requires Inv(s) && Next(s, s')
    ensures Inv(s')
  {
    if Progress(s, s') {
      var t: nat, w: nat :| CanAct(s, t, w) && s' == Act(s, t, w);
      ActKeepsExclusion(s, t, w);
      ActKeepsWakeups(s, t, w);
    } else {
      var t: nat :| CanWakeSpuriously(s, t) && s' == WakeSpuriously(s, t);
      SpuriousKeepsInv(s, t);
    }
  }

  // ----- the way into the kernel

  predicate At(s: State, t: nat, pc: Pc) {
    t < |s.threads| && s.threads[t].pc == pc
  }

  // A thread gets to the FUTEX_WAIT call only by an exchange that has marked the word
  // with 2 and found the lock taken.
  lemma WaitersMarkTheWord(run: seq<State>, i: nat, t: nat)
    requires Runs.IsRun(Init, Next, run) && i < |run| - 1
    requires At(run[i + 1], t, FutexWait) && !At(run[i], t, FutexWait)
    ensures At(run[i], t, Exchange) && run[i].word != 0 && run[i + 1].word == 2
  {
    assert Runs.StepAt(Next, run, i);
  }

  // ----- the fast path

  // The only thread there is has met nobody: the word is 1 while it holds the lock and
  // 0 otherwise.
  predicate Unhindered(s: State) {
    && |s.threads| == 1
    && s.threads[0].pc in {CompareExchange, LoadCounter, StoreCounter, FetchSub, Done}
    && s.word == (if s.threads[0].pc in {LoadCounter, StoreCounter, FetchSub} then 1 else 0)
    && (s.threads[0].left == 0 <==> s.threads[0].pc == Done)
  }

  // The actions that such a thread has still to take.
  function ActionsAlone(th: Thread): int {
    4 * th.left - match th.pc case LoadCounter => 1 case StoreCounter => 2 case FetchSub => 3 case _ => 0
  }

  lemma AloneStep(s: State, s': State)
    requires Unhindered(s) && Next(s, s')
    ensures Unhindered(s') && ActionsAlone(s'.threads[0]) == ActionsAlone(s.threads[0]) - 1
  {
  }

  // A thread that is alone never gets to the kernel: it takes the fast path into and
  // out of the lock every time, in four atomic actions an iteration, and the word is
  // never 2.
  lemma {:induction false} AloneStaysOnFastPath(run: seq<State>)
    requires Runs.IsRun(Init, Next, run) && |run[0].threads| == 1
    ensures var s := run[|run| - 1];
      && |s.threads| == 1 && s.word in {0, 1}
      && s.threads[0].pc !in {Exchange, FutexWait, Asleep, StoreZero, FutexWake}
      && Unhindered(s)
      && |run| - 1 + ActionsAlone(s.threads[0]) == 4 * run[0].threads[0].left
  {
    if |run| > 1 {
      Runs.Prefix(Init, Next, run);
      AloneStaysOnFastPath(run[..|run| - 1]);
      assert Runs.StepAt(Next, run, |run| - 2);
      AloneStep(run[|run| - 2], run[|run| - 1]);
    }
  }

  // ----- the counter

  // What the thread still has to add to the counter.
  function Owed(th: Thread): int {
    var n := if th.pc in {FetchSub, StoreZero, FutexWake} then th.left - 1 else th.left;
    if th.kind == Incrementer then n else -n
  }

  // The counter together with everything still to be added to it.
  function Balance(s: State): int {
    s.counter + SumBy(s.threads, Owed)
  }

  // How a sum over the threads changes in one action.
  lemma ActSum(s: State, t: nat, w: nat, f: Thread -> int)
    requires t < |s.threads| && w < |s.threads|
    ensures SumBy(Act(s, t, w).threads, f) == SumBy(s.threads, f) - f(s.threads[t]) + f(ActorAfter(s, s.threads[t]))
      + if w == t then 0 else f(s.threads[w].(pc := Exchange)) - f(s.threads[w])
  {
    var released := Released(s.threads, t, w);
    if w != t {
      SumByUpdate(s.threads, f, w, released[w]);
    }
    SumByUpdate(released, f, t, ActorAfter(s, s.threads[t]));
  }

  lemma ActKeepsBalance(s: State, t: nat, w: nat)
    requires Inv(s) && CanAct(s, t, w)
    ensures Balance(Act(s, t, w)) == Balance(s)
  {
    ActSum(s, t, w, Owed);
    assert ThreadOk(s, s.threads[t]);
  }

  lemma NextKeepsBalance(s: State, s': State)
    requires Inv(s) && Next(s, s')
    ensures Balance(s') == Balance(s)
  {
    if Progress(s, s') {
      var t: nat, w: nat :| CanAct(s, t, w) && s' == Act(s, t, w);
      ActKeepsBalance(s, t, w);
    } else {
      var t: nat :| CanWakeSpuriously(s, t) && s' == WakeSpuriously(s, t);
      SumByUpdate(s.threads, Owed, t, s'.threads[t]);
    }
  }

  // ----- termination

  // The unlock actions (fetch_sub, store, wake) a thread may still perform.
  function UnlocksLeft(th: Thread): int {
    3 * th.left - (match th.pc case StoreZero => 1 case FutexWake => 2 case _ => 0)
  }

  // How far a thread is from its next unlock action or from sleeping, while no
  // other thread unlocks.
  function Distance(th: Thread, contended: bool): int {
    match th.pc
    case CompareExchange => 5
    case Exchange => if contended then 2 else 3
    case FutexWait => if contended then 1 else 4
    case LoadCounter => 2
    case StoreCounter => 1
    case _ => 0
  }

  function DistanceWhen(contended: bool): Thread -> int {
    th => Distance(th, contended)
  }

  // Every action except a spurious wake-up lowers this.
  function Measure(s: State): int {
    SumBy(s.threads, UnlocksLeft) * (5 * |s.threads| + 1) + SumBy(s.threads, DistanceWhen(s.word == 2))
  }

  lemma DistanceRange(threads: seq<Thread>, contended: bool)
    ensures 0 <= SumBy(threads, DistanceWhen(contended)) <= 5 * |threads|
  {
    SumByBounds(threads, DistanceWhen(contended), 0, 5);
  }

  lemma UnlocksLeftDrop(s: State, t: nat, w: nat)
    requires Inv(s) && CanAct(s, t, w)
    ensures var u, u' := SumBy(s.threads, UnlocksLeft), SumBy(Act(s, t, w).threads, UnlocksLeft);
      if s.threads[t].pc in {FetchSub, StoreZero, FutexWake} then u' <= u - 1 else u' == u
  {
    assert ThreadOk(s, s.threads[t]);
    ActSum(s, t, w, UnlocksLeft);
  }

  lemma Lexicographic(u: int, u': int, d: int, d': int, bound: nat)
    requires u' <= u - 1 && 0 <= d && d' <= bound
    ensures u' * (bound + 1) + d' < u * (bound + 1) + d
  {
    assert u' * (bound + 1) <= (u - 1) * (bound + 1) == u * (bound + 1) - (bound + 1);
  }

  lemma UnlockLowersMeasure(s: State, t: nat, w: nat)
    requires Inv(s) && CanAct(s, t, w)
    requires s.threads[t].pc in {FetchSub, StoreZero, FutexWake}
    ensures Measure(Act(s, t, w)) < Measure(s)
  {
    var s' := Act(s, t, w);
    UnlocksLeftDrop(s, t, w);
    DistanceRange(s.threads, s.word == 2);
    DistanceRange(s'.threads, s'.word == 2);
    Lexicographic(SumBy(s.threads, UnlocksLeft), SumBy(s'.threads, UnlocksLeft),
      SumBy(s.threads, DistanceWhen(s.word == 2)), SumBy(s'.threads, DistanceWhen(s'.word == 2)), 5 * |s.threads|);
  }

  // A thread whose distance before the action is that of the actor after it.
  function Proxy(s: State, th: Thread): Thread {
    var th' := ActorAfter(s, th);
    if s.word != 2 && th.pc == Exchange && th'.pc == FutexWait then th.(pc := StoreCounter) else th'
  }

  lemma ProxyDistance(s: State, th: Thread)
    requires th.pc !in {FetchSub, StoreZero, FutexWake, Asleep, Done}
    ensures var word' := WordAfter(s.word, th.pc);
      && Distance(Proxy(s, th), s.word == 2) == Distance(ActorAfter(s, th), word' == 2) < Distance(th, s.word == 2)
      && (s.word == 2 ==> word' == 2)
  {
  }

  lemma OtherActionLowersMeasure(s: State, t: nat, w: nat)
    requires Inv(s) && CanAct(s, t, w)
    requires s.threads[t].pc !in {FetchSub, StoreZero, FutexWake}
    ensures Measure(Act(s, t, w)) < Measure(s)
  {
    var s', th := Act(s, t, w), s.threads[t];
    var before, after := DistanceWhen(s.word == 2), DistanceWhen(s'.word == 2);
    UnlocksLeftDrop(s, t, w);
    ProxyDistance(s, th);
    SumByLe(s'.threads, after, s.threads[t := Proxy(s, th)], before);
    SumByUpdate(s.threads, before, t, Proxy(s, th));
    SameFactor(SumBy(s.threads, UnlocksLeft), SumBy(s'.threads, UnlocksLeft), |s.threads|);
  }

  lemma SameFactor(u: int, u': int, n: nat)
    requires u == u'
    ensures u * (5 * n + 1) == u' * (5 * n + 1)
  {
  }

  lemma SpuriousRaisesMeasureLittle(s: State, t: nat)
    requires CanWakeSpuriously(s, t)
    ensures Measure(WakeSpuriously(s, t)) <= Measure(s) + 3
  {
    var s' := WakeSpuriously(s, t);
    SumByUpdate(s.threads, UnlocksLeft, t, s'.threads[t]);
    SumByUpdate(s.threads, DistanceWhen(s.word == 2), t, s'.threads[t]);
  }

  lemma NextAndMeasure(s: State, s': State)
    requires Inv(s) && Next(s, s')
    ensures Measure(s') <= if Spurious(s, s') then Measure(s) + 3 else Measure(s) - 1
  {
    if Spurious(s, s') {
      var t: nat :| CanWakeSpuriously(s, t) && s' == WakeSpuriously(s, t);
      SpuriousRaisesMeasureLittle(s, t);
    } else {
      var t: nat, w: nat :| CanAct(s, t, w) && s' == Act(s, t, w);
      if s.threads[t].pc in {FetchSub, StoreZero, FutexWake} {
        UnlockLowersMeasure(s, t, w);
      } else {
        OtherActionLowersMeasure(s, t, w);
      }
    }
  }

  lemma UnlocksNonNegative(s: State)
    requires Inv(s)
    ensures 0 <= SumBy(s.threads, UnlocksLeft)
  {
    forall t | 0 <= t < |s.threads| ensures 0 <= UnlocksLeft(s.threads[t]) {
      assert ThreadOk(s, s.threads[t]);
    }
    if |s.threads| > 0 {
      SumByAtLeast(s.threads, UnlocksLeft, 0);
    }
  }

  lemma MeasureNonNegative(s: State)
    requires Inv(s)
    ensures 0 <= Measure(s)
  {
    UnlocksNonNegative(s);
    DistanceRange(s.threads, s.word == 2);
    ProductNonNegative(SumBy(s.threads, UnlocksLeft), 5 * |s.threads| + 1);
  }

  lemma ProductNonNegative(a: nat, b: nat)
    ensures 0 <= a * b
  {
  }

  // ----- results about whole runs

  ghost predicate IsRun(run: seq<State>) {
    Runs.IsRun(Init, Next, run)
  }

  predicate AllDone(s: State) {
    forall t :: 0 <= t < |s.threads| ==> s.threads[t].pc == Done
  }

  lemma InvIsInductive()
    ensures Runs.Inductive(Init, Next, Inv)
  {
    forall s | Init(s) ensures Inv(s) { InvInit(s); }
    forall s, s' | Inv(s) && Next(s, s') ensures Inv(s') { NextKeepsInv(s, s'); }
  }

  lemma BalanceIsKept()
    ensures Runs.Keeps(Next, Inv, Balance)
  {
    forall s, s' | Inv(s) && Next(s, s') ensures Balance(s') == Balance(s) { NextKeepsBalance(s, s'); }
  }

  // Every state of every run, for any number of threads and iterations and with
  // spurious wake-ups: the lock word is 0, 1 or 2, at most one thread is between
  // taking the lock and resetting the word, and no sleeper is forgotten.
  lemma SafetyInEveryRun(run: seq<State>, i: nat)
    requires IsRun(run) && i < |run|
    ensures Inv(run[i])
    ensures Balance(run[i]) == Balance(run[0])
  {
    InvIsInductive();
    BalanceIsKept();
    Runs.InvariantHolds(Init, Next, Inv, run, i);
    Runs.Conserved(Init, Next, Inv, Balance, run, i);
  }

  // No reachable state has all its unfinished threads asleep: while anybody is
  // unfinished, somebody can act without a spurious wake-up.
  lemma NeverAllAsleep(s: State)
    requires Inv(s)
    ensures AllDone(s) || exists t: nat, w: nat :: CanAct(s, t, w)
  {
    if t :| 0 <= t < |s.threads| && s.threads[t].pc !in {Asleep, Done} {
      if w :| w in Sleepers(s) && s.threads[t].pc == FutexWake {
        assert CanAct(s, t, w);
      } else {
        assert CanAct(s, t, t);
      }
    } else {
      // Nobody holds the lock, so the word is 0; nobody is a rescuer; so nobody sleeps.
      assert forall u :: 0 <= u < |s.threads| ==> !Holds(s.threads[u]) && !Rescuer(s.threads[u]);
      assert s.word == 0;
    }
  }

  // Nobody can act; only a spurious wake-up could continue the run.
  ghost predicate Stuck(s: State) {
    forall t: nat, w: nat :: !CanAct(s, t, w)
  }

  // The iterations the threads perform altogether, and what they add to the counter.
  function Iterations(th: Thread): int { th.left }

  function Effect(th: Thread): int {
    th.left * Delta(th.kind)
  }

  lemma StepsLowerMeasure()
    ensures Runs.StepsLower(Next, Inv, Spurious, Measure, 3)
  {
    forall s, s' | Inv(s) && Next(s, s')
      ensures Measure(s') <= if Spurious(s, s') then Measure(s) + 3 else Measure(s) - 1
    {
      NextAndMeasure(s, s');
    }
  }

  // However the threads are scheduled, a run takes a bounded number of steps,
  // plus four for each spurious wake-up in it.  No fairness is assumed.
  lemma RunsAreBounded(run: seq<State>)
    requires IsRun(run)
    ensures |run| - 1 <= 3 * SumBy(run[0].threads, Iterations) * (5 * |run[0].threads| + 1) + 5 * |run[0].threads|
      + 4 * Runs.CountSteps(Spurious, run)
  {
    InvIsInductive();
    StepsLowerMeasure();
    Runs.StepBound(Init, Next, Inv, Spurious, Measure, 3, run);
    Runs.ProductIs(3 + 1, Runs.CountSteps(Spurious, run));
    SafetyInEveryRun(run, |run| - 1);
    MeasureNonNegative(run[|run| - 1]);
    InitialMeasure(run[0]);
  }

  lemma InitialMeasure(s: State)
    requires Init(s)
    ensures Measure(s) <= 3 * SumBy(s.threads, Iterations) * (5 * |s.threads| + 1) + 5 * |s.threads|
  {
    TripleSum(s.threads);
    SumByBounds(s.threads, DistanceWhen(s.word == 2), 0, 5);
  }

  lemma {:induction false} TripleSum(threads: seq<Thread>)
    requires forall t :: 0 <= t < |threads| ==> threads[t].pc in {CompareExchange, Done}
    ensures SumBy(threads, UnlocksLeft) == 3 * SumBy(threads, Iterations)
  {
    if |threads| > 0 {
      TripleSum(threads[..|threads| - 1]);
    }
  }

  // A run that cannot be continued without a spurious wake-up has finished: every
  // thread is done, and the counter shows every increment and decrement.
  lemma MaximalRunsFinish(run: seq<State>)
    requires IsRun(run)
    requires Stuck(run[|run| - 1])
    ensures AllDone(run[|run| - 1])
    ensures run[|run| - 1].counter == run[0].counter + SumBy(run[0].threads, Effect)
  {
    var last := run[|run| - 1];
    SafetyInEveryRun(run, |run| - 1);
    NeverAllAsleep(last);
    NothingOwed(last);
    SumByLe(run[0].threads, Owed, run[0].threads, Effect);
    SumByLe(run[0].threads, Effect, run[0].threads, Owed);
  }

  // ----- the program itself: the shared words updated in place

  class FutexProgram {
    var state: int          // mtx.state
    var counter: int        // *counter
    const threads: array<Thread>

    ghost function View(): State
      reads this, threads
    {
      State(state, counter, threads[..])
    }

    constructor (kinds: seq<Kind>, iterations: nat)
      ensures fresh(threads) && Init(View()) && counter == 0 && threads.Length == |kinds|
      ensures forall t :: 0 <= t < |kinds| ==> threads[t] == Start(kinds[t], iterations)
    {
      state, counter := 0, 0;
      threads := new Thread[|kinds|](t requires 0 <= t < |kinds| => Start(kinds[t], iterations));
    }

    // Thread t performs its next atomic action; a wake call releases w.
    method Perform(t: nat, w: nat)
      requires CanAct(View(), t, w)
      modifies this, threads
      ensures View() == Act(old(View()), t, w)
    {
      var th := threads[t];
      match th.pc {
        case CompareExchange =>
          if state == 0 {
            state := 1;
            threads[t] := th.(pc := LoadCounter);
          } else {
            threads[t] := th.(pc := Exchange);
          }
        case Exchange =>
          var oldValue := state;
          state := 2;
          threads[t] := th.(pc := if oldValue != 0 then FutexWait else LoadCounter);
        case FutexWait =>
          threads[t] := th.(pc := if state == 2 then Asleep else Exchange);
        case LoadCounter =>
          threads[t] := th.(pc := StoreCounter, loaded := counter);
        case StoreCounter =>
          counter := th.loaded + Delta(th.kind);
          threads[t] := th.(pc := FetchSub);
        case FetchSub =>
          var oldValue := state;
          state := state - 1;
          threads[t] := if oldValue != 1 then th.(pc := StoreZero) else NextIteration(th);
        case StoreZero =>
          state := 0;
          threads[t] := th.(pc := FutexWake);
        case FutexWake =>
          if w != t {
            threads[w] := threads[w].(pc := Exchange);
          }
          threads[t] := NextIteration(th);
        case _ =>
          assert false;
      }
    }

    // Follows a schedule as far as it is possible to follow it.
    method Execute(schedule: seq<(nat, nat)>)
      requires Inv(View())
      modifies this, threads
      ensures Inv(View())
      ensures Balance(View()) == old(Balance(View()))
      ensures AllDone(View()) ==> counter == old(Balance(View()))
    {
      for i := 0 to |schedule|
        invariant Inv(View())
        invariant Balance(View()) == old(Balance(View()))
      {
        var (t, w) := schedule[i];
        if CanAct(State(state, counter, threads[..]), t, w) {
          ghost var before := View();
          Perform(t, w);
          assert Progress(before, View());
          NextKeepsInv(before, View());
          NextKeepsBalance(before, View());
        }
      }
      if AllDone(State(state, counter, threads[..])) {
        NothingOwed(View());
      }
    }
  }

  lemma NothingOwed(s: State)
    requires Inv(s) && AllDone(s)
    ensures Balance(s) == s.counter
  {
    forall t | 0 <= t < |s.threads| ensures 0 <= Owed(s.threads[t]) <= 0 {
      assert ThreadOk(s, s.threads[t]);
    }
    SumByBounds(s.threads, Owed, 0, 0);
  }
}
