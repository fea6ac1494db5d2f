// The bounded buffer of sync2/code/bounded_buffer_cv.c: one producer and one
// consumer process, a ring with a size, a mutex and two condition variables.
module ConditionBuffer {
  import Ring
  import Runs

  datatype Pc =
    | Entering   // about to lock mtx
    | Waiting    // producer: in the wait set of "empty"; consumer: of "nonempty"
    | Woken      // out of the wait set, about to lock mtx again and recheck
    | Done

  // "count" is the loop variable i.
  datatype Process = Process(pc: Pc, count: nat)

  datatype State = State(
    items: seq<int>, inIndex: nat, outIndex: nat, size: int,
    producer: Process, consumer: Process,
    put: seq<int>, taken: seq<int>)   // logs of what was produced and consumed

  function Iterate(count: nat, iterations: nat): Process {
    Process(if count >= iterations then Done else Entering, count)
  }

  ghost predicate Init(s: State, iterations: nat) {
    && |s.items| > 0
    && s.inIndex == 0 && s.outIndex == 0 && s.size == 0
    && s.producer == Iterate(0, iterations) && s.consumer == Iterate(0, iterations)
    && s.put == [] && s.taken == []
  }

  predicate CanAct(s: State, p: Process) {
    p.pc in {Entering, Woken} && s.inIndex < |s.items| && s.outIndex < |s.items|
  }

  // pthread_cond_signal on the condition variable of process p.
  function Signalled(p: Process): Process {
    if p.pc == Waiting then p.(pc := Woken) else p
  }

  // The producer's critical section, up to unlocking mtx or waiting.
  function Produce(s: State, iterations: nat): State
    requires CanAct(s, s.producer)
  {
    if s.size >= |s.items| then s.(producer := s.producer.(pc := Waiting))
    else s.(items := s.items[s.inIndex := s.producer.count],
            inIndex := (s.inIndex + 1) % |s.items|,
            size := s.size + 1,
            put := s.put + [s.producer.count],
            producer := Iterate(s.producer.count + 1, iterations),
            consumer := Signalled(s.consumer))
  }

  // The consumer's critical section.
  function Consume(s: State, iterations: nat): State
    requires CanAct(s, s.consumer)
  {
    if s.size == 0 then s.(consumer := s.consumer.(pc := Waiting))
    else s.(outIndex := (s.outIndex + 1) % |s.items|,
            size := s.size - 1,
            taken := s.taken + [s.items[s.outIndex]],
            consumer := Iterate(s.consumer.count + 1, iterations),
            producer := Signalled(s.producer))
  }

  ghost predicate Progress(s: State, s': State, iterations: nat) {
    || (CanAct(s, s.producer) && s' == Produce(s, iterations))
    || (CanAct(s, s.consumer) && s' == Consume(s, iterations))
  }

  // pthread_cond_wait may return without a signal.
  ghost predicate Spurious(s: State, s': State) {
    || (s.producer.pc == Waiting && s' == s.(producer := Signalled(s.producer)))
    || (s.consumer.pc == Waiting && s' == s.(consumer := Signalled(s.consumer)))
  }

  ghost predicate Next(s: State, s': State, iterations: nat) {
    Progress(s, s', iterations) || Spurious(s, s')
  }

  // ----- the invariant

  ghost predicate Inv(s: State, iterations: nat) {
    && Ring.Represents(s.items, s.inIndex, s.outIndex, s.put, s.taken)
    && s.size == |s.put| - |s.taken|
    && s.put == Ring.Upto(s.producer.count) && |s.taken| == s.consumer.count
    && s.producer.count <= iterations && s.consumer.count <= iterations
    && (s.producer.pc == Done <==> s.producer.count == iterations)
    && (s.consumer.pc == Done <==> s.consumer.count == iterations)
    // A process waits only while its condition still holds.
    && (s.producer.pc == Waiting ==> s.size == |s.items|)
    && (s.consumer.pc == Waiting ==> s.size == 0)
  }

  lemma ProduceKeepsInv(s: State, iterations: nat)
    requires Inv(s, iterations) && CanAct(s, s.producer)
    ensures Inv(Produce(s, iterations), iterations)
  {
    if s.size < |s.items| {
      Ring.PutKeeps(s.items, s.inIndex, s.outIndex, s.put, s.taken, s.producer.count);
    }
  }

  lemma ConsumeKeepsInv(s: State, iterations: nat)
    requires Inv(s, iterations) && CanAct(s, s.consumer)
    ensures Inv(Consume(s, iterations), iterations)
  {
    if s.size != 0 {
      Ring.TakeKeeps(s.items, s.inIndex, s.outIndex, s.put, s.taken);
    }
  }

  lemma NextKeepsInv(s: State, s': State, iterations: nat)
    requires Inv(s, iterations) && Next(s, s', iterations)
    ensures Inv(s', iterations)
  {
    if CanAct(s, s.producer) && s' == Produce(s, iterations) {
      ProduceKeepsInv(s, iterations);
    } else if CanAct(s, s.consumer) && s' == Consume(s, iterations) {
      ConsumeKeepsInv(s, iterations);
    }
  }

  // ----- results about whole runs

  ghost function InitWith(iterations: nat): State -> bool {
    s => Init(s, iterations)
  }

  ghost function NextWith(iterations: nat): (State, State) -> bool {
    (s, s') => Next(s, s', iterations)
  }

  ghost function InvWith(iterations: nat): State -> bool {
    s => Inv(s, iterations)
  }

  ghost predicate IsRun(run: seq<State>, iterations: nat) {
    Runs.IsRun(InitWith(iterations), NextWith(iterations), run)
  }

  lemma InvIsInductive(iterations: nat)
    ensures Runs.Inductive(InitWith(iterations), NextWith(iterations), InvWith(iterations))
  {
    forall s, s' | InvWith(iterations)(s) && NextWith(iterations)(s, s') ensures InvWith(iterations)(s') {
      NextKeepsInv(s, s', iterations);
    }
  }

  // In every state of every run the consumed numbers are a prefix of 0, 1, 2, ...,
  // the ring holds the rest in order, and the two processes are never both in a
  // wait set.
  lemma SafetyInEveryRun(run: seq<State>, k: nat, iterations: nat)
    requires IsRun(run, iterations) && k < |run|
    ensures Inv(run[k], iterations)
    ensures run[k].taken == Ring.Upto(|run[k].taken|)
    ensures !(run[k].producer.pc == Waiting && run[k].consumer.pc == Waiting)
  {
    InvIsInductive(iterations);
    Runs.InvariantHolds(InitWith(iterations), NextWith(iterations), InvWith(iterations), run, k);
  }

  function Awake(p: Process): int {
    if p.pc in {Entering, Woken} then 1 else 0
  }

  function MeasureWith(iterations: nat): State -> int {
    (s: State) => 3 * (iterations - s.producer.count) + 3 * (iterations - s.consumer.count)
      + Awake(s.producer) + Awake(s.consumer)
  }

  lemma NextAndMeasure(s: State, s': State, iterations: nat)
    requires Inv(s, iterations) && Next(s, s', iterations)
    ensures var m, m' := MeasureWith(iterations)(s), MeasureWith(iterations)(s');
      m' <= if Spurious(s, s') then m + 1 else m - 1
  {
  }

  lemma MeasureEnds(s: State, iterations: nat)
    requires Inv(s, iterations)
    ensures 0 <= MeasureWith(iterations)(s) <= 6 * iterations + 2
  {
  }

  lemma StepsLowerMeasure(iterations: nat)
    ensures Runs.StepsLower(NextWith(iterations), InvWith(iterations), Spurious, MeasureWith(iterations), 1)
  {
    forall s, s' | InvWith(iterations)(s) && NextWith(iterations)(s, s')
      ensures MeasureWith(iterations)(s') <=
        if Spurious(s, s') then MeasureWith(iterations)(s) + 1 else MeasureWith(iterations)(s) - 1
    {
      NextAndMeasure(s, s', iterations);
    }
  }

  lemma MeasureInRun(run: seq<State>, iterations: nat)
    requires IsRun(run, iterations)
    ensures var measure := MeasureWith(iterations);
      |run| - 1 + measure(run[|run| - 1]) <= measure(run[0]) + 2 * Runs.CountSteps(Spurious, run)
  {
    InvIsInductive(iterations);
    StepsLowerMeasure(iterations);
    Runs.StepBound(InitWith(iterations), NextWith(iterations), InvWith(iterations), Spurious,
      MeasureWith(iterations), 1, run);
    Runs.ProductIs(1 + 1, Runs.CountSteps(Spurious, run));
  }

  // Every run takes at most six steps per item, plus two for each spurious wake-up.
  lemma RunsAreBounded(run: seq<State>, iterations: nat)
    requires IsRun(run, iterations)
    ensures |run| - 1 <= 6 * iterations + 2 + 2 * Runs.CountSteps(Spurious, run)
  {
    MeasureInRun(run, iterations);
    SafetyInEveryRun(run, 0, iterations);
    SafetyInEveryRun(run, |run| - 1, iterations);
    MeasureEnds(run[0], iterations);
    MeasureEnds(run[|run| - 1], iterations);
  }

  // Neither process can go on without a spurious wake-up.
  predicate Stuck(s: State) {
    !CanAct(s, s.producer) && !CanAct(s, s.consumer)
  }

  // A run that cannot go on has consumed exactly 0, 1, ..., iterations - 1, in this
  // order: no signal is ever missed.
  lemma MaximalRunsConsumeAll(run: seq<State>, iterations: nat)
    requires IsRun(run, iterations)
    requires Stuck(run[|run| - 1])
    ensures run[|run| - 1].producer.pc == Done && run[|run| - 1].consumer.pc == Done
    ensures run[|run| - 1].taken == Ring.Upto(iterations)
  {
    SafetyInEveryRun(run, |run| - 1, iterations);
  }

  // ----- the shared memory block, updated in place

  class Context {
    const items: array<int>
    var inIndex: nat
    var outIndex: nat
    var size: int
    var producer: Process
    var consumer: Process
    ghost var put: seq<int>
    ghost var taken: seq<int>

    ghost function View(): State
      reads this, items
    {
      State(items[..], inIndex, outIndex, size, producer, consumer, put, taken)
    }

    constructor (bufferSize: nat, iterations: nat)
      requires bufferSize > 0
      ensures Init(View(), iterations) && fresh(items) && items.Length == bufferSize
    {
      items := new int[bufferSize](i => 0);
      inIndex, outIndex, size := 0, 0, 0;
      producer, consumer := Iterate(0, iterations), Iterate(0, iterations);
      put, taken := [], [];
    }

    // The producer locks mtx and goes on until it unlocks it or waits.
    method ProducerSection(iterations: nat)
      requires CanAct(View(), producer)
      modifies this, items
      ensures View() == Produce(old(View()), iterations)
    {
      if size >= items.Length {
        producer := producer.(pc := Waiting);
        return;
      }
      var newItem := producer.count;
      items[inIndex] := newItem;
      inIndex := (inIndex + 1) % items.Length;
      size := size + 1;
      put := put + [newItem];
      consumer := Signalled(consumer);
      producer := Iterate(newItem + 1, iterations);
    }

    // The consumer locks mtx and goes on until it unlocks it or waits; "got" is the
    // item it prints.
    method ConsumerSection(iterations: nat) returns (consumed: bool, got: int)
      requires CanAct(View(), consumer)
      modifies this
      ensures View() == Consume(old(View()), iterations)
      ensures consumed <==> old(size) != 0
      ensures taken == if consumed then old(taken) + [got] else old(taken)
    {
      if size == 0 {
        consumer := consumer.(pc := Waiting);
        return false, 0;
      }
      var item := items[outIndex];
      outIndex := (outIndex + 1) % items.Length;
      size := size - 1;
      taken := taken + [item];
      producer := Signalled(producer);
      consumer := Iterate(consumer.count + 1, iterations);
      return true, item;
    }
  }
}
