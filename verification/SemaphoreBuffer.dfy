// The many-to-many bounded buffer of sync2/code/bounded_buffer_sem.c: a ring
// guarded by three semaphores, for any number of producers and consumers, any
// buffer size and any number of items.
module SemaphoreBuffer {
  import Ring
  import Runs
  import opened Sums

  // What a producer makes in one iteration; the program prints 100 * producer + index.
  datatype Item = Item(producer: nat, index: nat)

  datatype Pc =
    | WaitSlot     // producer: sem_wait(empty);     consumer: sem_wait(nonempty)
    | WaitMutex    // sem_wait(mtx)
    | Access       // producer: items[in] = item;    consumer: item = items[out]
    | Advance      // producer: in = (in + 1) % N;   consumer: out = (out + 1) % N
    | PostMutex    // sem_post(mtx)
    | PostSlot     // producer: sem_post(nonempty);  consumer: sem_post(empty)
    | Done

  // "rounds" counts the iterations not yet completed; "item" is what the process
  // is storing or has read.
  datatype Process = Process(pc: Pc, rounds: nat, item: Item)

  datatype State = State(
    items: seq<Item>, inIndex: nat, outIndex: nat,
    mtx: int, empty: int, nonempty: int,
    producers: seq<Process>, consumers: seq<Process>,
    put: seq<Item>, taken: seq<Item>)   // logs of completed stores and reads

  function Begin(p: Process, rounds: nat): Process {
    p.(pc := if rounds == 0 then Done else WaitSlot, rounds := rounds)
  }

  function NextIteration(p: Process): Process {
    Begin(p, if p.rounds == 0 then 0 else p.rounds - 1)
  }

  // "perProducer" items each; a consumer takes the total divided by the number of
  // consumers, rounded down, as in the source.
  function Share(s: State, perProducer: nat): nat
    requires |s.consumers| > 0
  {
    (|s.producers| * perProducer) / |s.consumers|
  }

  ghost predicate Init(s: State, perProducer: nat) {
    && 0 < |s.items| && s.inIndex == 0 && s.outIndex == 0
    && s.mtx == 1 && s.empty == |s.items| && s.nonempty == 0
    && |s.consumers| > 0
    && (forall p :: 0 <= p < |s.producers| ==> s.producers[p] == Begin(s.producers[p], perProducer))
    && (forall c :: 0 <= c < |s.consumers| ==> s.consumers[c] == Begin(s.consumers[c], Share(s, perProducer)))
    && s.put == [] && s.taken == []
  }

  // ----- steps

  predicate ProducerCanAct(s: State, p: nat) {
    && p < |s.producers|
    && 0 < |s.items| && s.inIndex < |s.items|
    && match s.producers[p].pc
       case WaitSlot => s.empty > 0
       case WaitMutex => s.mtx > 0
       case Done => false
       case _ => true
  }

  // The item producer p stores when "rounds" iterations are left.
  function Produced(p: nat, rounds: nat, perProducer: nat): Item {
    Item(p, if rounds <= perProducer then perProducer - rounds else 0)
  }

  function ProducerAct(s: State, p: nat, perProducer: nat): State
    requires ProducerCanAct(s, p)
  {
    var th := s.producers[p];
    match th.pc
    case WaitSlot =>
      s.(empty := s.empty - 1,
         producers := s.producers[p := th.(pc := WaitMutex, item := Produced(p, th.rounds, perProducer))])
    case WaitMutex => s.(mtx := s.mtx - 1, producers := s.producers[p := th.(pc := Access)])
    case Access => s.(items := s.items[s.inIndex := th.item], producers := s.producers[p := th.(pc := Advance)])
    case Advance =>
      s.(inIndex := (s.inIndex + 1) % |s.items|, put := s.put + [th.item],
         producers := s.producers[p := th.(pc := PostMutex)])
    case PostMutex => s.(mtx := s.mtx + 1, producers := s.producers[p := th.(pc := PostSlot)])
    case PostSlot => s.(nonempty := s.nonempty + 1, producers := s.producers[p := NextIteration(th)])
  }

  predicate ConsumerCanAct(s: State, c: nat) {
    && c < |s.consumers|
    && 0 < |s.items| && s.outIndex < |s.items|
    && match s.consumers[c].pc
       case WaitSlot => s.nonempty > 0
       case WaitMutex => s.mtx > 0
       case Done => false
       case _ => true
  }

  function ConsumerAct(s: State, c: nat): State
    requires ConsumerCanAct(s, c)
  {
    var th := s.consumers[c];
    match th.pc
    case WaitSlot => s.(nonempty := s.nonempty - 1, consumers := s.consumers[c := th.(pc := WaitMutex)])
    case WaitMutex => s.(mtx := s.mtx - 1, consumers := s.consumers[c := th.(pc := Access)])
    case Access => s.(consumers := s.consumers[c := th.(pc := Advance, item := s.items[s.outIndex])])
    case Advance =>
      s.(outIndex := (s.outIndex + 1) % |s.items|, taken := s.taken + [th.item],
         consumers := s.consumers[c := th.(pc := PostMutex)])
    case PostMutex => s.(mtx := s.mtx + 1, consumers := s.consumers[c := th.(pc := PostSlot)])
    case PostSlot => s.(empty := s.empty + 1, consumers := s.consumers[c := NextIteration(th)])
  }

  ghost predicate Next(s: State, s': State, perProducer: nat) {
    || (exists p: nat :: ProducerCanAct(s, p) && s' == ProducerAct(s, p, perProducer))
    || (exists c: nat :: ConsumerCanAct(s, c) && s' == ConsumerAct(s, c))
  }

  // ----- the invariant

  function Is(b: bool): int { if b then 1 else 0 }

  // A process that took its slot token and has not yet moved its index.
  function Before(p: Process): int { Is(p.pc in {WaitMutex, Access, Advance}) }

  // A process that has moved its index and not yet given a token back.
  function After(p: Process): int { Is(p.pc in {PostMutex, PostSlot}) }

  function InMutex(p: Process): int { Is(p.pc in {Access, Advance, PostMutex}) }

  // Index moves a process still has to make.
  function MovesLeft(p: Process): int {
    p.rounds - After(p)
  }

  ghost predicate Tokens(s: State) {
    && s.mtx >= 0 && s.empty >= 0 && s.nonempty >= 0
    && s.mtx + SumBy(s.producers, InMutex) + SumBy(s.consumers, InMutex) == 1
    && s.empty + s.nonempty + SumBy(s.producers, Before) + SumBy(s.producers, After)
       + SumBy(s.consumers, Before) + SumBy(s.consumers, After) == |s.items|
    && |s.put| - |s.taken| == s.nonempty + SumBy(s.producers, After) + SumBy(s.consumers, Before)
  }

  ghost predicate ProcessesOk(s: State) {
    && (forall p :: 0 <= p < |s.producers| ==> (s.producers[p].rounds == 0 <==> s.producers[p].pc == Done))
    && (forall c :: 0 <= c < |s.consumers| ==> (s.consumers[c].rounds == 0 <==> s.consumers[c].pc == Done))
  }

  // The half-finished access to the ring, if there is one.
  ghost predicate AccessOk(s: State) {
    && Ring.Represents(s.items, s.inIndex, s.outIndex, s.put, s.taken)
    && (forall p :: 0 <= p < |s.producers| && s.producers[p].pc == Advance ==>
          s.items[s.inIndex] == s.producers[p].item)
    && (forall c :: 0 <= c < |s.consumers| && s.consumers[c].pc == Advance ==>
          s.items[s.outIndex] == s.consumers[c].item)
  }

  // The items of one producer in a log, by index.
  function From(log: seq<Item>, p: nat): seq<nat> {
    if |log| == 0 then []
    else From(log[..|log| - 1], p) + if log[|log| - 1].producer == p then [log[|log| - 1].index] else []
  }

  // Producer p's items are in the log once each, in the order it made them.
  ghost predicate InOrder(put: seq<Item>, th: Process, p: nat, perProducer: nat) {
    && 0 <= MovesLeft(th) <= perProducer
    && From(put, p) == Ring.Upto(perProducer - MovesLeft(th))
    && (Before(th) == 1 ==> th.item == Produced(p, th.rounds, perProducer))
  }

  ghost predicate OrderOk(s: State, perProducer: nat) {
    forall p :: 0 <= p < |s.producers| ==> InOrder(s.put, s.producers[p], p, perProducer)
  }

  ghost predicate Inv(s: State, perProducer: nat) {
    Tokens(s) && ProcessesOk(s) && AccessOk(s) && OrderOk(s, perProducer)
  }

  // Replacing process i changes each of the token sums by its own difference.
  lemma ReplaceProcess(ps: seq<Process>, i: nat, p: Process)
    requires i < |ps|
    ensures SumBy(ps[i := p], Before) == SumBy(ps, Before) - Before(ps[i]) + Before(p)
    ensures SumBy(ps[i := p], After) == SumBy(ps, After) - After(ps[i]) + After(p)
    ensures SumBy(ps[i := p], InMutex) == SumBy(ps, InMutex) - InMutex(ps[i]) + InMutex(p)
  {
    SumByUpdate(ps, Before, i, p);
    SumByUpdate(ps, After, i, p);
    SumByUpdate(ps, InMutex, i, p);
  }

  lemma TokenSums(ps: seq<Process>, i: nat)
    requires i < |ps|
    ensures Before(ps[i]) <= SumBy(ps, Before)
    ensures After(ps[i]) <= SumBy(ps, After)
    ensures InMutex(ps[i]) <= SumBy(ps, InMutex)
  {
    SumByAtLeast(ps, Before, i);
    SumByAtLeast(ps, After, i);
    SumByAtLeast(ps, InMutex, i);
  }

  lemma SumsNonNegative(ps: seq<Process>)
    ensures 0 <= SumBy(ps, Before) && 0 <= SumBy(ps, After) && 0 <= SumBy(ps, InMutex)
  {
    if |ps| > 0 {
      TokenSums(ps, 0);
    }
  }

  // At most one process is between sem_wait(mtx) and sem_post(mtx).
  lemma MutexExcludes(s: State)
    requires Tokens(s)
    ensures forall p, q :: 0 <= p < q < |s.producers| ==> InMutex(s.producers[p]) + InMutex(s.producers[q]) <= 1
    ensures forall c, d :: 0 <= c < d < |s.consumers| ==> InMutex(s.consumers[c]) + InMutex(s.consumers[d]) <= 1
    ensures forall p, c :: 0 <= p < |s.producers| && 0 <= c < |s.consumers| ==>
      InMutex(s.producers[p]) + InMutex(s.consumers[c]) <= 1
  {
    SumsNonNegative(s.producers);
    SumsNonNegative(s.consumers);
    forall p, q | 0 <= p < q < |s.producers| ensures InMutex(s.producers[p]) + InMutex(s.producers[q]) <= 1 {
      SumByAtLeastTwo(s.producers, InMutex, p, q);
    }
    forall c, d | 0 <= c < d < |s.consumers| ensures InMutex(s.consumers[c]) + InMutex(s.consumers[d]) <= 1 {
      SumByAtLeastTwo(s.consumers, InMutex, c, d);
    }
    forall p, c | 0 <= p < |s.producers| && 0 <= c < |s.consumers|
      ensures InMutex(s.producers[p]) + InMutex(s.consumers[c]) <= 1
    {
      TokenSums(s.producers, p);
      TokenSums(s.consumers, c);
    }
  }

  // A producer about to store finds room, and a consumer about to read finds an item.
  lemma RoomAndStock(s: State)
    requires Tokens(s)
    ensures forall p :: 0 <= p < |s.producers| && Before(s.producers[p]) == 1 ==> |s.put| < |s.taken| + |s.items|
    ensures forall c :: 0 <= c < |s.consumers| && Before(s.consumers[c]) == 1 ==> |s.taken| < |s.put|
  {
    SumsNonNegative(s.producers);
    SumsNonNegative(s.consumers);
    forall p | 0 <= p < |s.producers| && Before(s.producers[p]) == 1 ensures |s.put| < |s.taken| + |s.items| {
      TokenSums(s.producers, p);
    }
    forall c | 0 <= c < |s.consumers| && Before(s.consumers[c]) == 1 ensures |s.taken| < |s.put| {
      TokenSums(s.consumers, c);
    }
  }

  lemma ProducerKeepsProcesses(s: State, p: nat, perProducer: nat)
    requires ProcessesOk(s) && ProducerCanAct(s, p)
    ensures ProcessesOk(ProducerAct(s, p, perProducer))
  {
  }

  lemma ConsumerKeepsProcesses(s: State, c: nat)
    requires ProcessesOk(s) && ConsumerCanAct(s, c)
    ensures ProcessesOk(ConsumerAct(s, c))
  {
  }

  lemma ProducerKeepsTokens(s: State, p: nat, perProducer: nat)
    requires Tokens(s) && ProcessesOk(s) && ProducerCanAct(s, p)
    ensures Tokens(ProducerAct(s, p, perProducer))
  {
    var s' := ProducerAct(s, p, perProducer);
    ReplaceProcess(s.producers, p, s'.producers[p]);
    assert s'.producers == s.producers[p := s'.producers[p]];
  }

  lemma ConsumerKeepsTokens(s: State, c: nat)
    requires Tokens(s) && ProcessesOk(s) && ConsumerCanAct(s, c)
    ensures Tokens(ConsumerAct(s, c))
  {
    var s' := ConsumerAct(s, c);
    ReplaceProcess(s.consumers, c, s'.consumers[c]);
    assert s'.consumers == s.consumers[c := s'.consumers[c]];
  }

  lemma ProducerKeepsAccess(s: State, p: nat, perProducer: nat)
    requires Tokens(s) && AccessOk(s) && ProducerCanAct(s, p)
    ensures AccessOk(ProducerAct(s, p, perProducer))
  {
    var s', th := ProducerAct(s, p, perProducer), s.producers[p];
    MutexExcludes(s);
    RoomAndStock(s);
    if th.pc in {Access, Advance} {
      assert Before(th) == 1 && InMutex(th) == 1;
      Ring.PutKeeps(s.items, s.inIndex, s.outIndex, s.put, s.taken, th.item);
      assert th.pc == Advance ==> s.items[s.inIndex := th.item] == s.items;
      forall q | 0 <= q < |s.producers| && q != p ensures s.producers[q].pc != Advance {
        assert InMutex(s.producers[if q < p then q else p]) + InMutex(s.producers[if q < p then p else q]) <= 1;
      }
    }
  }

  lemma ConsumerKeepsAccess(s: State, c: nat)
    requires Tokens(s) && AccessOk(s) && ConsumerCanAct(s, c)
    ensures AccessOk(ConsumerAct(s, c))
  {
    var s', th := ConsumerAct(s, c), s.consumers[c];
    MutexExcludes(s);
    RoomAndStock(s);
    if th.pc == Advance {
      assert Before(th) == 1 && InMutex(th) == 1;
      Ring.TakeKeeps(s.items, s.inIndex, s.outIndex, s.put, s.taken);
      forall d | 0 <= d < |s.consumers| && d != c ensures s.consumers[d].pc != Advance {
        assert InMutex(s.consumers[if d < c then d else c]) + InMutex(s.consumers[if d < c then c else d]) <= 1;
      }
    }
  }

  lemma ProducerKeepsOrder(s: State, p: nat, perProducer: nat)
    requires ProcessesOk(s) && OrderOk(s, perProducer) && ProducerCanAct(s, p)
    ensures OrderOk(ProducerAct(s, p, perProducer), perProducer)
  {
    var s' := ProducerAct(s, p, perProducer);
    forall q | 0 <= q < |s'.producers| ensures InOrder(s'.put, s'.producers[q], q, perProducer) {
      assert InOrder(s.put, s.producers[q], q, perProducer);
      if q == p {
        ProducerKeepsOwnOrder(s, p, perProducer);
      } else {
        assert s'.producers[q] == s.producers[q];
        ProducerKeepsOthersOrder(s, p, q, perProducer);
      }
    }
  }

  lemma ProducerKeepsOwnOrder(s: State, p: nat, perProducer: nat)
    requires ProducerCanAct(s, p) && InOrder(s.put, s.producers[p], p, perProducer)
    requires s.producers[p].rounds > 0
    ensures var s' := ProducerAct(s, p, perProducer); InOrder(s'.put, s'.producers[p], p, perProducer)
  {
    if s.producers[p].pc == Advance {
      FromOne(s.put, s.producers[p].item, p);
    }
  }

  lemma ProducerKeepsOthersOrder(s: State, p: nat, q: nat, perProducer: nat)
    requires ProducerCanAct(s, p) && q != p
    requires Before(s.producers[p]) == 1 ==> s.producers[p].item.producer == p
    ensures From(ProducerAct(s, p, perProducer).put, q) == From(s.put, q)
  {
    if s.producers[p].pc == Advance {
      FromOne(s.put, s.producers[p].item, q);
    }
  }

  lemma FromOne(log: seq<Item>, item: Item, p: nat)
    ensures From(log + [item], p) == From(log, p) + if item.producer == p then [item.index] else []
  {
    assert (log + [item])[..|log|] == log;
  }

  lemma ConsumerKeepsOrder(s: State, c: nat, perProducer: nat)
    requires OrderOk(s, perProducer) && ConsumerCanAct(s, c)
    ensures OrderOk(ConsumerAct(s, c), perProducer)
  {
  }

  lemma NextKeepsInv(s: State, s': State, perProducer: nat)
    requires Inv(s, perProducer) && Next(s, s', perProducer)
    ensures Inv(s', perProducer)
  {
    if p: nat :| ProducerCanAct(s, p) && s' == ProducerAct(s, p, perProducer) {
      ProducerKeepsProcesses(s, p, perProducer);
      ProducerKeepsTokens(s, p, perProducer);
      ProducerKeepsAccess(s, p, perProducer);
      ProducerKeepsOrder(s, p, perProducer);
    } else {
      var c: nat :| ConsumerCanAct(s, c) && s' == ConsumerAct(s, c);
      ConsumerKeepsProcesses(s, c);
      ConsumerKeepsTokens(s, c);
      ConsumerKeepsAccess(s, c);
      ConsumerKeepsOrder(s, c, perProducer);
    }
  }

  lemma InvInit(s: State, perProducer: nat)
    requires Init(s, perProducer)
    ensures Inv(s, perProducer)
  {
    forall ps | ps in {s.producers, s.consumers}
      ensures SumBy(ps, Before) == 0 && SumBy(ps, After) == 0 && SumBy(ps, InMutex) == 0
    {
      SumByBounds(ps, Before, 0, 0);
      SumByBounds(ps, After, 0, 0);
      SumByBounds(ps, InMutex, 0, 0);
    }
  }

  // ----- results about whole runs

  ghost function InitWith(perProducer: nat): State -> bool {
    s => Init(s, perProducer)
  }

  ghost function NextWith(perProducer: nat): (State, State) -> bool {
    (s, s') => Next(s, s', perProducer)
  }

  ghost predicate IsRun(run: seq<State>, perProducer: nat) {
    Runs.IsRun(InitWith(perProducer), NextWith(perProducer), run)
  }

  ghost function InvWith(perProducer: nat): State -> bool {
    s => Inv(s, perProducer)
  }

  lemma InvIsInductive(perProducer: nat)
    ensures Runs.Inductive(InitWith(perProducer), NextWith(perProducer), InvWith(perProducer))
  {
    forall s | InitWith(perProducer)(s) ensures InvWith(perProducer)(s) {
      InvInit(s, perProducer);
    }
    forall s, s' | InvWith(perProducer)(s) && NextWith(perProducer)(s, s') ensures InvWith(perProducer)(s') {
      NextKeepsInv(s, s', perProducer);
    }
  }

  // Always: slot tokens are conserved, the mutex is held once, what was taken is
  // a prefix of what was put, the ring holds the rest, and every producer's items
  // went in once each and in order.
  lemma SafetyInEveryRun(run: seq<State>, k: nat, perProducer: nat)
    requires IsRun(run, perProducer) && k < |run|
    ensures Inv(run[k], perProducer)
    ensures run[k].taken <= run[k].put && |run[k].put| - |run[k].taken| <= |run[k].items|
  {
    InvIsInductive(perProducer);
    Runs.InvariantHolds(InitWith(perProducer), NextWith(perProducer), InvWith(perProducer), run, k);
  }

  // Items put so far and still to be put; items taken so far and still to be taken.
  function PutGoal(s: State): int { |s.put| + SumBy(s.producers, MovesLeft) }

  function TakenGoal(s: State): int { |s.taken| + SumBy(s.consumers, MovesLeft) }

  // The semaphore operations and ring accesses a process has still to perform.
  function OperationsLeft(p: Process): int {
    6 * p.rounds - (match p.pc
                    case WaitMutex => 1 case Access => 2 case Advance => 3
                    case PostMutex => 4 case PostSlot => 5 case _ => 0)
  }

  function Measure(s: State): int {
    SumBy(s.producers, OperationsLeft) + SumBy(s.consumers, OperationsLeft)
  }

  // One operation less to perform, and the same goals.
  ghost predicate SameGoals(s: State, s': State) {
    && PutGoal(s') == PutGoal(s) && TakenGoal(s') == TakenGoal(s) && Measure(s') == Measure(s) - 1
    && |s'.producers| == |s.producers| && |s'.consumers| == |s.consumers| && |s'.items| == |s.items|
  }

  lemma ProducerKeepsGoals(s: State, p: nat, perProducer: nat)
    requires ProcessesOk(s) && ProducerCanAct(s, p)
    ensures SameGoals(s, ProducerAct(s, p, perProducer))
  {
    var s' := ProducerAct(s, p, perProducer);
    SumByUpdate(s.producers, MovesLeft, p, s'.producers[p]);
    SumByUpdate(s.producers, OperationsLeft, p, s'.producers[p]);
    assert s'.producers == s.producers[p := s'.producers[p]];
  }

  lemma ConsumerKeepsGoals(s: State, c: nat)
    requires ProcessesOk(s) && ConsumerCanAct(s, c)
    ensures SameGoals(s, ConsumerAct(s, c))
  {
    var s' := ConsumerAct(s, c);
    SumByUpdate(s.consumers, MovesLeft, c, s'.consumers[c]);
    SumByUpdate(s.consumers, OperationsLeft, c, s'.consumers[c]);
    assert s'.consumers == s.consumers[c := s'.consumers[c]];
  }

  lemma StepKeepsGoals(s: State, s': State, perProducer: nat)
    requires ProcessesOk(s) && Next(s, s', perProducer)
    ensures SameGoals(s, s')
  {
    if p: nat :| ProducerCanAct(s, p) && s' == ProducerAct(s, p, perProducer) {
      ProducerKeepsGoals(s, p, perProducer);
    } else {
      var c: nat :| ConsumerCanAct(s, c) && s' == ConsumerAct(s, c);
      ConsumerKeepsGoals(s, c);
    }
  }

  lemma {:induction false} GoalsInRun(run: seq<State>, k: nat, perProducer: nat)
    requires IsRun(run, perProducer) && k < |run|
    ensures var s := run[0];
      && PutGoal(run[k]) == |s.producers| * perProducer
      && TakenGoal(run[k]) == |s.consumers| * Share(s, perProducer)
      && Measure(run[k]) == Measure(s) - k
      && |run[k].producers| == |s.producers| && |run[k].consumers| == |s.consumers| && |run[k].items| == |s.items|
  {
    var s := run[0];
    if k == 0 {
      SumByBounds(s.producers, MovesLeft, perProducer, perProducer);
      SumByBounds(s.consumers, MovesLeft, Share(s, perProducer), Share(s, perProducer));
    } else {
      GoalsInRun(run, k - 1, perProducer);
      SafetyInEveryRun(run, k - 1, perProducer);
      assert Runs.StepAt(NextWith(perProducer), run, k - 1);
      StepKeepsGoals(run[k - 1], run[k], perProducer);
    }
  }

  // No run performs more than six operations for each item to be put or taken.
  lemma RunsAreBounded(run: seq<State>, perProducer: nat)
    requires IsRun(run, perProducer)
    ensures |run| - 1 <= 6 * (|run[0].producers| * perProducer + |run[0].consumers| * Share(run[0], perProducer))
  {
    var s, last := run[0], run[|run| - 1];
    GoalsInRun(run, |run| - 1, perProducer);
    SafetyInEveryRun(run, |run| - 1, perProducer);
    OperationsBound(last.producers);
    OperationsBound(last.consumers);
    InitialOperations(s.producers, perProducer);
    InitialOperations(s.consumers, Share(s, perProducer));
  }

  lemma OperationsBound(ps: seq<Process>)
    requires forall p :: 0 <= p < |ps| ==> (ps[p].rounds == 0 <==> ps[p].pc == Done)
    ensures 0 <= SumBy(ps, OperationsLeft)
  {
    if |ps| > 0 {
      SumByAtLeast(ps, OperationsLeft, 0);
    }
  }

  lemma InitialOperations(ps: seq<Process>, rounds: nat)
    requires forall p :: 0 <= p < |ps| ==> ps[p] == Begin(ps[p], rounds)
    ensures SumBy(ps, OperationsLeft) == 6 * (|ps| * rounds)
  {
    SumByBounds(ps, OperationsLeft, 6 * rounds, 6 * rounds);
    assert |ps| * (6 * rounds) == 6 * (|ps| * rounds);
  }

  ghost predicate Stuck(s: State) {
    (forall p: nat :: !ProducerCanAct(s, p)) && (forall c: nat :: !ConsumerCanAct(s, c))
  }

  predicate AllDone(ps: seq<Process>) {
    forall p :: 0 <= p < |ps| ==> ps[p].pc == Done
  }

  // When nothing can move, nobody is inside the mutex: its holder could go on.
  lemma StuckOutside(s: State, perProducer: nat)
    requires Inv(s, perProducer) && Stuck(s)
    ensures s.mtx == 1
    ensures forall p :: 0 <= p < |s.producers| ==> s.producers[p].pc in {WaitSlot, Done}
    ensures forall c :: 0 <= c < |s.consumers| ==> s.consumers[c].pc in {WaitSlot, Done}
  {
    forall p | 0 <= p < |s.producers| ensures InMutex(s.producers[p]) == 0 { assert !ProducerCanAct(s, p); }
    forall c | 0 <= c < |s.consumers| ensures InMutex(s.consumers[c]) == 0 { assert !ConsumerCanAct(s, c); }
    SumByBounds(s.producers, InMutex, 0, 0);
    SumByBounds(s.consumers, InMutex, 0, 0);
    forall p | 0 <= p < |s.producers| ensures s.producers[p].pc in {WaitSlot, Done} { assert !ProducerCanAct(s, p); }
    forall c | 0 <= c < |s.consumers| ensures s.consumers[c].pc in {WaitSlot, Done} { assert !ConsumerCanAct(s, c); }
  }

  lemma NoTokensInTransit(ps: seq<Process>)
    requires forall p :: 0 <= p < |ps| ==> ps[p].pc in {WaitSlot, Done}
    ensures SumBy(ps, Before) == 0 && SumBy(ps, After) == 0
  {
    SumByBounds(ps, Before, 0, 0);
    SumByBounds(ps, After, 0, 0);
  }

  // Then every process is done or waits for a slot that is not there.
  lemma StuckShape(s: State, perProducer: nat)
    requires Inv(s, perProducer) && Stuck(s)
    ensures forall p :: 0 <= p < |s.producers| ==>
      s.producers[p].pc == Done || (s.producers[p].pc == WaitSlot && s.empty == 0)
    ensures forall c :: 0 <= c < |s.consumers| ==>
      s.consumers[c].pc == Done || (s.consumers[c].pc == WaitSlot && s.nonempty == 0)
    ensures s.empty + s.nonempty == |s.items| && |s.put| - |s.taken| == s.nonempty
  {
    StuckOutside(s, perProducer);
    NoTokensInTransit(s.producers);
    NoTokensInTransit(s.consumers);
    forall p | 0 <= p < |s.producers| ensures s.producers[p].pc == Done || s.empty == 0 {
      assert !ProducerCanAct(s, p);
    }
    forall c | 0 <= c < |s.consumers| ensures s.consumers[c].pc == Done || s.nonempty == 0 {
      assert !ConsumerCanAct(s, c);
    }
  }

  lemma NoMovesIffDone(ps: seq<Process>)
    requires forall p :: 0 <= p < |ps| ==> ps[p].pc in {Done, WaitSlot} && (ps[p].rounds == 0 <==> ps[p].pc == Done)
    ensures SumBy(ps, MovesLeft) >= 0
    ensures SumBy(ps, MovesLeft) == 0 <==> AllDone(ps)
  {
    if AllDone(ps) {
      SumByBounds(ps, MovesLeft, 0, 0);
    } else {
      var p :| 0 <= p < |ps| && ps[p].pc != Done;
      SumByAtLeast(ps, MovesLeft, p);
    }
  }

  // In a run that cannot go on the consumers have always finished, and have taken all
  // items but the remainder of the total divided among them.  Both sides have finished
  // if and only if that remainder fits into the buffer.  Nothing is lost: if the
  // consumers divide the total, everything put has been taken, every item of every
  // producer exactly once and in order.
  lemma MaximalRuns(run: seq<State>, perProducer: nat)
    requires IsRun(run, perProducer)
    requires Stuck(run[|run| - 1])
    ensures var s, last := run[0], run[|run| - 1];
      var total := |s.producers| * perProducer;
      && AllDone(last.consumers)
      && |s.consumers| > 0 && |last.taken| == total - total % |s.consumers|
      && (AllDone(last.producers) <==> total % |s.consumers| <= |s.items|)
      && (total % |s.consumers| == 0 ==>
            && AllDone(last.producers) && last.taken == last.put
            && forall p :: 0 <= p < |s.producers| ==> From(last.taken, p) == Ring.Upto(perProducer))
  {
    var s, last := run[0], run[|run| - 1];
    var total, eaten := |s.producers| * perProducer, |s.consumers| * Share(s, perProducer);
    StuckEnd(run, perProducer);
    Remainder(total, |s.consumers|);
    StuckArithmetic(last, total, eaten);
    if total == eaten {
      EachItemOnce(last, perProducer);
    }
  }

  // What is known at the end of a run that cannot go on.
  ghost predicate Ended(s: State, total: nat, eaten: nat) {
    && eaten <= total && 0 < |s.items| && s.taken <= s.put && 0 <= s.empty && 0 <= s.nonempty
    && |s.put| + SumBy(s.producers, MovesLeft) == total && |s.taken| + SumBy(s.consumers, MovesLeft) == eaten
    && SumBy(s.producers, MovesLeft) >= 0 && SumBy(s.consumers, MovesLeft) >= 0
    && (SumBy(s.producers, MovesLeft) == 0 <==> AllDone(s.producers))
    && (SumBy(s.consumers, MovesLeft) == 0 <==> AllDone(s.consumers))
    && (s.empty == 0 || AllDone(s.producers)) && (s.nonempty == 0 || AllDone(s.consumers))
    && s.empty + s.nonempty == |s.items| && |s.put| - |s.taken| == s.nonempty
  }

  lemma StuckEnd(run: seq<State>, perProducer: nat)
    requires IsRun(run, perProducer) && Stuck(run[|run| - 1])
    ensures var s, last := run[0], run[|run| - 1];
      && |s.consumers| > 0 && |last.items| == |s.items| && |last.producers| == |s.producers|
      && Ended(last, |s.producers| * perProducer, |s.consumers| * Share(s, perProducer))
      && OrderOk(last, perProducer) && ProcessesOk(last)
  {
    var s, last := run[0], run[|run| - 1];
    SafetyInEveryRun(run, |run| - 1, perProducer);
    GoalsInRun(run, |run| - 1, perProducer);
    SharesFit(|s.producers| * perProducer, |s.consumers|);
    StuckState(last, |s.producers| * perProducer, |s.consumers| * Share(s, perProducer), perProducer);
  }

  lemma StuckState(s: State, total: nat, eaten: nat, perProducer: nat)
    requires Inv(s, perProducer) && Stuck(s)
    requires PutGoal(s) == total && TakenGoal(s) == eaten && eaten <= total
    ensures Ended(s, total, eaten)
  {
    StuckShape(s, perProducer);
    NoMovesIffDone(s.producers);
    NoMovesIffDone(s.consumers);
  }

  // When everything put has been taken, each producer's items were taken once, in order.
  lemma EachItemOnce(s: State, perProducer: nat)
    requires OrderOk(s, perProducer) && ProcessesOk(s) && AllDone(s.producers) && s.taken == s.put
    ensures forall p :: 0 <= p < |s.producers| ==> From(s.taken, p) == Ring.Upto(perProducer)
  {
    forall p | 0 <= p < |s.producers| ensures From(s.taken, p) == Ring.Upto(perProducer) {
      assert InOrder(s.put, s.producers[p], p, perProducer);
      assert MovesLeft(s.producers[p]) == 0;
    }
  }

  lemma SharesFit(total: nat, consumers: nat)
    requires consumers > 0
    ensures 0 <= consumers * (total / consumers) <= total
  {
  }

  lemma Remainder(total: nat, consumers: nat)
    requires consumers > 0
    ensures consumers * (total / consumers) == total - total % consumers
  {
  }

  lemma StuckArithmetic(s: State, total: nat, eaten: nat)
    requires Ended(s, total, eaten)
    ensures AllDone(s.consumers) && |s.taken| == eaten
    ensures AllDone(s.producers) <==> total - eaten <= |s.items|
    ensures total == eaten ==> s.taken == s.put
  {
  }

  // Consumer c takes an item.
  ghost function TakesOf(c: nat): (State, State) -> bool {
    (s, s') => ConsumerCanAct(s, c) && s.consumers[c].pc == Advance && s' == ConsumerAct(s, c)
  }

  // How far consumer c has come, counted back from the end.
  function ComeTo(c: nat): State -> int {
    (s: State) => if c < |s.consumers| then -MovesLeft(s.consumers[c]) else 0
  }

  lemma ConsumerComesOn(s: State, d: nat, c: nat)
    requires ProcessesOk(s) && ConsumerCanAct(s, d) && c < |s.consumers|
    ensures ComeTo(c)(ConsumerAct(s, d)) == ComeTo(c)(s) + if d == c && s.consumers[c].pc == Advance then 1 else 0
  {
    assert d != c ==> ConsumerAct(s, d).consumers[c] == s.consumers[c];
  }

  lemma ProducerComesNoFurther(s: State, p: nat, c: nat, perProducer: nat)
    requires ProducerCanAct(s, p)
    ensures ComeTo(c)(ProducerAct(s, p, perProducer)) == ComeTo(c)(s)
  {
    assert ProducerAct(s, p, perProducer).consumers == s.consumers;
  }

  lemma StepComesOn(s: State, s': State, c: nat, perProducer: nat)
    requires ProcessesOk(s) && Next(s, s', perProducer) && c < |s.consumers|
    ensures ComeTo(c)(s') == ComeTo(c)(s) + if TakesOf(c)(s, s') then 1 else 0
  {
    if TakesOf(c)(s, s') {
      ConsumerComesOn(s, c, c);
    } else if p: nat :| ProducerCanAct(s, p) && s' == ProducerAct(s, p, perProducer) {
      ProducerComesNoFurther(s, p, c, perProducer);
    } else {
      var d: nat :| ConsumerCanAct(s, d) && s' == ConsumerAct(s, d);
      ConsumerComesOn(s, d, c);
    }
  }

  lemma ComesOnInStep(run: seq<State>, m: nat, c: nat, perProducer: nat)
    requires IsRun(run, perProducer) && m < |run| - 1 && c < |run[0].consumers|
    ensures ComeTo(c)(run[m + 1]) == ComeTo(c)(run[m]) + if Runs.StepAt(TakesOf(c), run, m) then 1 else 0
  {
    GoalsInRun(run, m, perProducer);
    SafetyInEveryRun(run, m, perProducer);
    assert Runs.StepAt(NextWith(perProducer), run, m);
    StepComesOn(run[m], run[m + 1], c, perProducer);
  }

  // In a run that cannot go on each consumer has taken its share: the total divided
  // by the number of consumers, rounded down.
  lemma EachTakesItsShare(run: seq<State>, c: nat, perProducer: nat)
    requires IsRun(run, perProducer) && Stuck(run[|run| - 1]) && c < |run[0].consumers|
    ensures Runs.CountSteps(TakesOf(c), run) == (|run[0].producers| * perProducer) / |run[0].consumers|
  {
    var s, last := run[0], run[|run| - 1];
    forall m | 0 <= m < |run| - 1
      ensures ComeTo(c)(run[m + 1]) == ComeTo(c)(run[m]) + if Runs.StepAt(TakesOf(c), run, m) then 1 else 0
    {
      ComesOnInStep(run, m, c, perProducer);
    }
    Runs.CountExactly(TakesOf(c), ComeTo(c), run, 0, |run| - 1);
    assert run[0..|run|] == run;
    MaximalRuns(run, perProducer);
    StuckEnd(run, perProducer);
    GoalsInRun(run, |run| - 1, perProducer);
    NothingLeft(last, c);
    assert s.consumers[c] == Begin(s.consumers[c], Share(s, perProducer));
  }

  lemma NothingLeft(s: State, c: nat)
    requires ProcessesOk(s) && AllDone(s.consumers) && c < |s.consumers|
    ensures ComeTo(c)(s) == 0
  {
    assert s.consumers[c].pc == Done;
  }

  // ----- the shared buffer and its processes, updated in place

  class SharedBuffer {
    const items: array<Item>
    var inIndex: nat
    var outIndex: nat
    var mtx: int
    var empty: int
    var nonempty: int
    const producers: array<Process>
    const consumers: array<Process>
    ghost var put: seq<Item>
    ghost var taken: seq<Item>

    ghost predicate Valid()
      reads this
    {
      producers != consumers
    }

    ghost function View(): State
      reads this, items, producers, consumers
    {
      State(items[..], inIndex, outIndex, mtx, empty, nonempty, producers[..], consumers[..], put, taken)
    }

    constructor (size: nat, producerCount: nat, consumerCount: nat, perProducer: nat)
      requires size > 0 && consumerCount > 0
      ensures Valid() && Init(View(), perProducer)
      ensures items.Length == size && producers.Length == producerCount && consumers.Length == consumerCount
      ensures fresh(items) && fresh(producers) && fresh(consumers)
    {
      var share := (producerCount * perProducer) / consumerCount;
      var idle := Process(Done, 0, Item(0, 0));
      items := new Item[size](i => Item(0, 0));
      inIndex, outIndex := 0, 0;
      mtx, empty, nonempty := 1, size, 0;
      producers := new Process[producerCount](i => Begin(idle, perProducer));
      consumers := new Process[consumerCount](i => Begin(idle, share));
      put, taken := [], [];
    }

    // Producer p performs its next semaphore operation or buffer access.
    method ProducerAction(p: nat, perProducer: nat)
      requires Valid() && ProducerCanAct(View(), p)
      modifies this, items, producers
      ensures View() == ProducerAct(old(View()), p, perProducer)
    {
      var th := producers[p];
      match th.pc {
        case WaitSlot =>
          empty := empty - 1;
          producers[p] := th.(pc := WaitMutex, item := Produced(p, th.rounds, perProducer));
        case WaitMutex =>
          mtx := mtx - 1;
          producers[p] := th.(pc := Access);
        case Access =>
          items[inIndex] := th.item;
          producers[p] := th.(pc := Advance);
        case Advance =>
          inIndex := (inIndex + 1) % items.Length;
          put := put + [th.item];
          producers[p] := th.(pc := PostMutex);
        case PostMutex =>
          mtx := mtx + 1;
          producers[p] := th.(pc := PostSlot);
        case PostSlot =>
          nonempty := nonempty + 1;
          producers[p] := NextIteration(th);
        case Done =>
          assert false;
      }
    }

    // Consumer c performs its next semaphore operation or buffer access.
    method ConsumerAction(c: nat)
      requires Valid() && ConsumerCanAct(View(), c)
      modifies this, consumers
      ensures View() == ConsumerAct(old(View()), c)
    {
      var th := consumers[c];
      match th.pc {
        case WaitSlot =>
          nonempty := nonempty - 1;
          consumers[c] := th.(pc := WaitMutex);
        case WaitMutex =>
          mtx := mtx - 1;
          consumers[c] := th.(pc := Access);
        case Access =>
          consumers[c] := th.(pc := Advance, item := items[outIndex]);
        case Advance =>
          outIndex := (outIndex + 1) % items.Length;
          taken := taken + [th.item];
          consumers[c] := th.(pc := PostMutex);
        case PostMutex =>
          mtx := mtx + 1;
          consumers[c] := th.(pc := PostSlot);
        case PostSlot =>
          empty := empty + 1;
          consumers[c] := NextIteration(th);
        case Done =>
          assert false;
      }
    }
  }
}
