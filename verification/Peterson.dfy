// The Peterson lock of sync/code/peterson_atomic.c guarding bank transfers
// between two client threads.  Every access to a shared variable is a step of
// its own, so the loop condition of the lock is two steps, and so are the two
// halves of each balance update.
module Peterson {
  import Runs
  import opened Sums

  datatype Pc =
    | Choose       // pick accounts and amount
    | SetFlag      // flag[i] = 1
    | SetTurn      // turn = j
    | ReadFlag     // first operand of the loop condition: flag[j]
    | ReadTurn     // second operand: turn == j
    | Check        // balances[src] < amount
    | LoadSrc | StoreSrc   // balances[src] -= amount
    | LoadDst | StoreDst   // balances[dst] += amount
    | ClearFlag    // flag[i] = 0
    | Done

  datatype Order = Order(src: nat, dst: nat, amount: int)

  // "rounds" counts the iterations not yet completed; "overtaken" counts how often
  // the other thread has entered since this one last set turn.
  datatype Thread = Thread(pc: Pc, rounds: nat, order: Order, loaded: int, overtaken: nat)

  datatype State = State(flag: seq<bool>, turn: nat, balances: seq<int>, threads: seq<Thread>)

  function Begin(th: Thread, rounds: nat): Thread {
    th.(pc := if rounds == 0 then Done else Choose, rounds := rounds)
  }

  // The loop in client_simulator goes round, or ends.
  function NextIteration(th: Thread): Thread {
    Begin(th, if th.rounds == 0 then 0 else th.rounds - 1)
  }

  ghost predicate Init(s: State) {
    && s.flag == [false, false] && s.turn == 0
    && |s.balances| >= 2
    && (forall a :: 0 <= a < |s.balances| ==> s.balances[a] >= 0)
    && |s.threads| == 2
    && s.threads[0] == Begin(s.threads[0], s.threads[0].rounds)
    && s.threads[1] == Begin(s.threads[1], s.threads[1].rounds)
  }

  predicate Shape(s: State) {
    |s.flag| == 2 && |s.threads| == 2 && s.turn < 2
  }

  predicate ValidOrder(o: Order, accounts: nat) {
    o.src < accounts && o.dst < accounts && o.src != o.dst && 1 <= o.amount <= 100
  }

  // Thread i can act; o is what it orders if it is about to choose.
  predicate CanAct(s: State, i: nat, o: Order) {
    Shape(s) && i < 2 && s.threads[i].pc != Done && (s.threads[i].pc == Choose ==> ValidOrder(o, |s.balances|))
  }

  // What thread th, whose partner is j, turns into by its next action.
  function ActorAfter(s: State, th: Thread, j: nat, o: Order): Thread
    requires j < |s.flag|
    requires InCritical(th) ==> ValidOrder(th.order, |s.balances|)
  {
    match th.pc
    case Choose => th.(pc := SetFlag, order := o)
    case SetFlag => th.(pc := SetTurn)
    case SetTurn => th.(pc := ReadFlag, overtaken := 0)
    case ReadFlag => th.(pc := if s.flag[j] then ReadTurn else Check)
    case ReadTurn => th.(pc := if s.turn == j then ReadFlag else Check)
    case Check => th.(pc := if s.balances[th.order.src] < th.order.amount then ClearFlag else LoadSrc)
    case LoadSrc => th.(pc := StoreSrc, loaded := s.balances[th.order.src])
    case StoreSrc => th.(pc := LoadDst)
    case LoadDst => th.(pc := StoreDst, loaded := s.balances[th.order.dst])
    case StoreDst => th.(pc := ClearFlag)
    case ClearFlag => NextIteration(th)
    case Done => th
  }

  function BalancesAfter(balances: seq<int>, th: Thread): seq<int>
    requires InCritical(th) ==> ValidOrder(th.order, |balances|)
  {
    match th.pc
    case StoreSrc => balances[th.order.src := th.loaded - th.order.amount]
    case StoreDst => balances[th.order.dst := th.loaded + th.order.amount]
    case _ => balances
  }

  predicate InCritical(th: Thread) {
    th.pc in {Check, LoadSrc, StoreSrc, LoadDst, StoreDst, ClearFlag}
  }

  predicate Trying(th: Thread) {
    th.pc in {ReadFlag, ReadTurn}
  }

  // One atomic action of thread i.
  function Act(s: State, i: nat, o: Order): State
    requires CanAct(s, i, o)
    requires InCritical(s.threads[i]) ==> ValidOrder(s.threads[i].order, |s.balances|)
  {
    var th, j := s.threads[i], 1 - i;
    var th' := ActorAfter(s, th, j, o);
    var other := s.threads[j];
    var entered := Trying(th) && InCritical(th');
    State(
      match th.pc case SetFlag => s.flag[i := true] case ClearFlag => s.flag[i := false] case _ => s.flag,
      if th.pc == SetTurn then j else s.turn,
      BalancesAfter(s.balances, th),
      s.threads[i := th'][j := if entered then other.(overtaken := other.overtaken + 1) else other])
  }

  ghost predicate IsStepOf(s: State, s': State, i: nat) {
    exists o: Order ::
      && CanAct(s, i, o)
      && (InCritical(s.threads[i]) ==> ValidOrder(s.threads[i].order, |s.balances|))
      && s' == Act(s, i, o)
  }

  ghost predicate Next(s: State, s': State) {
    exists i: nat :: IsStepOf(s, s', i)
  }

  // ----- the invariant

  // The lock as thread i and its partner j see it.
  predicate LockOk(s: State, i: nat, j: nat)
    requires Shape(s) && i < 2 && j < 2
  {
    var a, b := s.threads[i], s.threads[j];
    && (s.flag[i] <==> a.pc == SetTurn || Trying(a) || InCritical(a))
    && !(InCritical(a) && InCritical(b))
    && (InCritical(a) && Trying(b) ==> s.turn == i)
    // Whoever has been overtaken once has its partner waiting behind it.
    && (Trying(a) ==> a.overtaken <= 1)
    && (Trying(a) && Trying(b) && a.overtaken == 1 ==> s.turn == i)
  }

  // What thread th, inside, knows about the accounts.
  predicate TransferOk(s: State, th: Thread) {
    && (th.pc in {SetFlag, SetTurn, ReadFlag, ReadTurn} || InCritical(th) ==> ValidOrder(th.order, |s.balances|))
    && (th.pc in {LoadSrc, StoreSrc} ==> s.balances[th.order.src] >= th.order.amount)
    && (th.pc == StoreSrc ==> th.loaded == s.balances[th.order.src])
    && (th.pc == StoreDst ==> th.loaded == s.balances[th.order.dst])
    && (th.pc == Done <==> th.rounds == 0)
  }

  predicate NoneNegative(s: State) {
    forall a :: 0 <= a < |s.balances| ==> s.balances[a] >= 0
  }

  predicate Inv(s: State) {
    && Shape(s)
    && LockOk(s, 0, 1) && LockOk(s, 1, 0)
    && TransferOk(s, s.threads[0]) && TransferOk(s, s.threads[1])
    && NoneNegative(s)
  }

  lemma ActKeepsLock(s: State, i: nat, o: Order)
    requires Inv(s) && CanAct(s, i, o)
    ensures var s' := Act(s, i, o); Shape(s') && LockOk(s', i, 1 - i) && LockOk(s', 1 - i, i)
  {
  }

  lemma ActKeepsOwnTransfer(s: State, i: nat, o: Order)
    requires Inv(s) && CanAct(s, i, o)
    ensures var s' := Act(s, i, o); NoneNegative(s') && TransferOk(s', s'.threads[i])
  {
    assert TransferOk(s, s.threads[i]);
  }

  lemma ActKeepsOtherTransfer(s: State, i: nat, o: Order)
    requires Inv(s) && CanAct(s, i, o)
    ensures var s' := Act(s, i, o); TransferOk(s', s'.threads[1 - i])
  {
    assert TransferOk(s, s.threads[1 - i]);
    if s.threads[i].pc in {StoreSrc, StoreDst} {
      assert !InCritical(s.threads[1 - i]);
    }
  }

  lemma ActKeepsInv(s: State, i: nat, o: Order)
    requires Inv(s) && CanAct(s, i, o)
    ensures Inv(Act(s, i, o))
  {
    ActKeepsLock(s, i, o);
    ActKeepsOwnTransfer(s, i, o);
    ActKeepsOtherTransfer(s, i, o);
    assert i == 0 || i == 1;
  }

  lemma NextKeepsInv(s: State, s': State)
    requires Inv(s) && Next(s, s')
    ensures Inv(s')
  {
    var i: nat :| IsStepOf(s, s', i);
    var o :| CanAct(s, i, o) && s' == Act(s, i, o);
    ActKeepsInv(s, i, o);
  }

  ghost predicate IsRun(run: seq<State>) {
    Runs.IsRun(Init, Next, run)
  }

  lemma InvIsInductive()
    ensures Runs.Inductive(Init, Next, Inv)
  {
    forall s | Init(s) ensures Inv(s) {}
    forall s, s' | Inv(s) && Next(s, s') ensures Inv(s') { NextKeepsInv(s, s'); }
  }

  // In every state of every run the two threads are never both inside, no balance
  // is negative, and a waiting thread has been overtaken at most once since it
  // set turn.
  lemma SafetyInEveryRun(run: seq<State>, k: nat)
    requires IsRun(run) && k < |run|
    ensures Inv(run[k])
    ensures forall i :: 0 <= i < 2 && Trying(run[k].threads[i]) ==> run[k].threads[i].overtaken <= 1
    ensures !(InCritical(run[k].threads[0]) && InCritical(run[k].threads[1]))
    ensures NoneNegative(run[k])
  {
    InvIsInductive();
    Runs.InvariantHolds(Init, Next, Inv, run, k);
  }

  // ----- money

  function Balance(b: int): int { b }

  // total_balance()
  function Total(balances: seq<int>): int {
    SumBy(balances, Balance)
  }

  // Money taken from the source account and not yet added to the destination.
  function InFlight(th: Thread): int {
    if th.pc in {LoadDst, StoreDst} then th.order.amount else 0
  }

  function Money(s: State): int {
    if |s.threads| != 2 then 0 else Total(s.balances) + InFlight(s.threads[0]) + InFlight(s.threads[1])
  }

  // What an action adds to the balances it takes out of what is in flight.
  lemma BalancesChange(balances: seq<int>, th: Thread)
    requires InCritical(th) ==> ValidOrder(th.order, |balances|)
    requires th.pc == StoreSrc ==> th.loaded == balances[th.order.src]
    requires th.pc == StoreDst ==> th.loaded == balances[th.order.dst]
    ensures Total(BalancesAfter(balances, th)) == Total(balances) +
      match th.pc case StoreSrc => -th.order.amount case StoreDst => th.order.amount case _ => 0
  {
    if th.pc == StoreSrc {
      SumByUpdate(balances, Balance, th.order.src, th.loaded - th.order.amount);
    } else if th.pc == StoreDst {
      SumByUpdate(balances, Balance, th.order.dst, th.loaded + th.order.amount);
    }
  }

  lemma ActKeepsMoney(s: State, i: nat, o: Order)
    requires CanAct(s, i, o) && TransferOk(s, s.threads[i])
    ensures Money(Act(s, i, o)) == Money(s)
  {
    var s', th := Act(s, i, o), s.threads[i];
    BalancesChange(s.balances, th);
    assert s'.balances == BalancesAfter(s.balances, th);
    assert InFlight(s'.threads[1 - i]) == InFlight(s.threads[1 - i]);
    assert InFlight(s'.threads[i]) == InFlight(ActorAfter(s, th, 1 - i, o));
  }

  lemma NextKeepsMoney(s: State, s': State)
    requires Inv(s) && Next(s, s')
    ensures Money(s') == Money(s)
  {
    var i: nat :| IsStepOf(s, s', i);
    var o :| CanAct(s, i, o) && s' == Act(s, i, o);
    ActKeepsMoney(s, i, o);
  }

  lemma MoneyIsKept()
    ensures Runs.Keeps(Next, Inv, Money)
  {
    forall s, s' | Inv(s) && Next(s, s') ensures Money(s') == Money(s) { NextKeepsMoney(s, s'); }
  }

  // The balances and the amount in flight always add up to the initial total;
  // when nobody is inside, the balances alone do.
  lemma MoneyIsConserved(run: seq<State>, k: nat)
    requires IsRun(run) && k < |run|
    ensures |run[k].threads| == 2
    ensures Total(run[k].balances) + InFlight(run[k].threads[0]) + InFlight(run[k].threads[1]) == Total(run[0].balances)
    ensures !InCritical(run[k].threads[0]) && !InCritical(run[k].threads[1]) ==>
      Total(run[k].balances) == Total(run[0].balances)
  {
    SafetyInEveryRun(run, k);
    InvIsInductive();
    MoneyIsKept();
    Runs.Conserved(Init, Next, Inv, Money, run, k);
  }

  // ----- what the transfers add up to

  // transfer() in one go, for two different accounts.
  function Transferred(balances: seq<int>, o: Order): (after: seq<int>)
    requires o.src < |balances| && o.dst < |balances|
    ensures |after| == |balances|
  {
    if balances[o.src] < o.amount then balances
    else balances[o.src := balances[o.src] - o.amount][o.dst := balances[o.dst] + o.amount]
  }

  // How far thread th, inside, has come with its transfer since the balances were "before".
  predicate Halfway(balances: seq<int>, th: Thread, before: seq<int>) {
    && ValidOrder(th.order, |before|)
    && match th.pc
       case Check => balances == before
       case LoadSrc | StoreSrc => before[th.order.src] >= th.order.amount && balances == before
       case LoadDst | StoreDst =>
         && before[th.order.src] >= th.order.amount
         && balances == before[th.order.src := before[th.order.src] - th.order.amount]
       case _ => balances == Transferred(before, th.order)
  }

  // Thread i, if inside, has come this far since the balances were "before".
  predicate HalfwayOf(s: State, i: nat, before: seq<int>)
    requires Shape(s) && i < 2
  {
    InCritical(s.threads[i]) ==> Halfway(s.balances, s.threads[i], before)
  }

  // Its own actions take a thread on with its transfer.
  lemma OwnStepKeepsHalfway(s: State, i: nat, o: Order, before: seq<int>)
    requires Inv(s) && CanAct(s, i, o) && InCritical(s.threads[i]) && Halfway(s.balances, s.threads[i], before)
    ensures var s' := Act(s, i, o); s.threads[i].pc != ClearFlag ==> Halfway(s'.balances, s'.threads[i], before)
    ensures s.threads[i].pc == ClearFlag ==>
      Act(s, i, o).balances == s.balances == Transferred(before, s.threads[i].order)
  {
    assert TransferOk(s, s.threads[i]);
  }

  // The partner of a thread inside changes nothing of it.
  lemma OtherStepKeepsHalfway(s: State, i: nat, o: Order)
    requires Inv(s) && CanAct(s, i, o) && InCritical(s.threads[1 - i])
    ensures var s' := Act(s, i, o);
      s'.balances == s.balances && s'.threads[1 - i] == s.threads[1 - i] && !InCritical(s'.threads[i])
  {
    ActKeepsLock(s, i, o);
  }

  // The balances are "settled", but for what a thread inside has done of its transfer.
  predicate Agrees(s: State, settled: seq<int>) {
    && Shape(s)
    && HalfwayOf(s, 0, settled) && HalfwayOf(s, 1, settled)
    && (!InCritical(s.threads[0]) && !InCritical(s.threads[1]) ==> s.balances == settled)
  }

  // An action outside the critical section leaves the balances alone.
  lemma OutsideStep(s: State, i: nat, o: Order)
    requires Inv(s) && CanAct(s, i, o) && !InCritical(s.threads[i])
    ensures var s' := Act(s, i, o);
      && Shape(s') && s'.balances == s.balances
      && (InCritical(s'.threads[i]) ==> s'.threads[i].pc == Check && ValidOrder(s'.threads[i].order, |s.balances|))
      && InCritical(s'.threads[1 - i]) == InCritical(s.threads[1 - i])
  {
    assert TransferOk(s, s.threads[i]);
  }

  // Nor does an action inside make a thread leave, except the last.
  lemma InsideStep(s: State, i: nat, o: Order)
    requires Inv(s) && CanAct(s, i, o) && InCritical(s.threads[i])
    ensures var s' := Act(s, i, o);
      && Shape(s') && !InCritical(s'.threads[1 - i])
      && (InCritical(s'.threads[i]) <==> s.threads[i].pc != ClearFlag)
  {
    assert LockOk(s, i, 1 - i);
  }

  // An action agrees with the balances settled so far, which take in the transfer
  // of a thread that leaves.
  lemma ActAgrees(s: State, i: nat, o: Order, settled: seq<int>)
    requires Inv(s) && CanAct(s, i, o) && Agrees(s, settled)
    ensures s.threads[i].pc == ClearFlag ==> ValidOrder(s.threads[i].order, |settled|)
    ensures Agrees(Act(s, i, o),
      if s.threads[i].pc == ClearFlag then Transferred(settled, s.threads[i].order) else settled)
  {
    var s' := Act(s, i, o);
    assert HalfwayOf(s, i, settled) && HalfwayOf(s, 1 - i, settled);
    if InCritical(s.threads[i]) {
      InsiderAgrees(s, i, o, settled);
    } else if InCritical(s.threads[1 - i]) {
      OtherStepKeepsHalfway(s, i, o);
      OutsideStep(s, i, o);
      OneInside(s', 1 - i, settled);
    } else {
      OutsideStep(s, i, o);
      OneInside(s', i, settled);
    }
  }

  lemma InsiderAgrees(s: State, i: nat, o: Order, settled: seq<int>)
    requires Inv(s) && CanAct(s, i, o) && InCritical(s.threads[i]) && Halfway(s.balances, s.threads[i], settled)
    ensures Agrees(Act(s, i, o),
      if s.threads[i].pc == ClearFlag then Transferred(settled, s.threads[i].order) else settled)
  {
    OwnStepKeepsHalfway(s, i, o, settled);
    InsideStep(s, i, o);
    OneInside(Act(s, i, o), i,
      if s.threads[i].pc == ClearFlag then Transferred(settled, s.threads[i].order) else settled);
  }

  lemma OneInside(s: State, i: nat, settled: seq<int>)
    requires Shape(s) && i < 2 && !InCritical(s.threads[1 - i])
    requires if InCritical(s.threads[i]) then Halfway(s.balances, s.threads[i], settled) else s.balances == settled
    ensures Agrees(s, settled)
  {
    assert i == 0 || i == 1;
  }

  // Thread i lowers its flag, with its transfer behind it.
  ghost predicate Leaves(s: State, s': State, i: nat) {
    Shape(s) && i < 2 && s.threads[i].pc == ClearFlag && IsStepOf(s, s', i)
  }

  // The orders served in a run, in the order in which their threads left.
  ghost function Served(run: seq<State>): seq<Order> {
    if |run| < 2 then []
    else
      var s, s' := run[|run| - 2], run[|run| - 1];
      Served(run[..|run| - 1]) +
        (if Leaves(s, s', 0) then [s.threads[0].order] else if Leaves(s, s', 1) then [s.threads[1].order] else [])
  }

  ghost predicate AllValid(orders: seq<Order>, accounts: nat) {
    forall k :: 0 <= k < |orders| ==> ValidOrder(orders[k], accounts)
  }

  // The orders carried out one after the other, each as a whole.
  ghost function CarriedOut(balances: seq<int>, orders: seq<Order>): (after: seq<int>)
    requires AllValid(orders, |balances|)
    ensures |after| == |balances|
  {
    if orders == [] then balances
    else Transferred(CarriedOut(balances, orders[..|orders| - 1]), orders[|orders| - 1])
  }

  lemma CarriedOutOne(balances: seq<int>, orders: seq<Order>, o: Order)
    requires AllValid(orders, |balances|) && ValidOrder(o, |balances|)
    ensures AllValid(orders + [o], |balances|)
    ensures CarriedOut(balances, orders + [o]) == Transferred(CarriedOut(balances, orders), o)
  {
    assert (orders + [o])[..|orders|] == orders;
  }

  lemma LeavingMoves(s: State, s': State, i: nat)
    requires Leaves(s, s', i)
    ensures Shape(s') && s'.threads[i].pc != ClearFlag
  {
  }

  // At most one thread can lower its flag in a state.
  lemma OneLeaves(s: State, s': State, i: nat, o: Order)
    requires Inv(s) && CanAct(s, i, o) && s' == Act(s, i, o)
    ensures Leaves(s, s', i) <==> s.threads[i].pc == ClearFlag
    ensures !Leaves(s, s', 1 - i)
  {
    assert IsStepOf(s, s', i);
    assert LockOk(s, i, 1 - i) && TransferOk(s, s.threads[1 - i]);
    assert s'.threads[1 - i].pc == s.threads[1 - i].pc;
    if Leaves(s, s', 1 - i) {
      LeavingMoves(s, s', 1 - i);
    }
  }

  // The transfers happen as if one after the other, in the order in which the
  // threads leave, although each is five accesses that the other thread's run between:
  // with nobody inside, the balances are what the orders served make of the initial ones.
  lemma {:induction false} TransfersAreSerial(run: seq<State>)
    requires IsRun(run)
    ensures AllValid(Served(run), |run[0].balances|)
    ensures Agrees(run[|run| - 1], CarriedOut(run[0].balances, Served(run)))
    ensures var s := run[|run| - 1]; !InCritical(s.threads[0]) && !InCritical(s.threads[1]) ==>
      s.balances == CarriedOut(run[0].balances, Served(run))
  {
    if |run| > 1 {
      var front, s, s' := run[..|run| - 1], run[|run| - 2], run[|run| - 1];
      Runs.Prefix(Init, Next, run);
      TransfersAreSerial(front);
      SafetyInEveryRun(run, |run| - 2);
      assert Runs.StepAt(Next, run, |run| - 2);
      var i: nat :| IsStepOf(s, s', i);
      var o :| CanAct(s, i, o) && s' == Act(s, i, o);
      ServedOne(run, i, o);
      ServedAgrees(s, i, o, run[0].balances, Served(front));
    }
  }

  lemma ServedAgrees(s: State, i: nat, o: Order, initial: seq<int>, served: seq<Order>)
    requires Inv(s) && CanAct(s, i, o)
    requires AllValid(served, |initial|) && Agrees(s, CarriedOut(initial, served))
    ensures var served' := served + if s.threads[i].pc == ClearFlag then [s.threads[i].order] else [];
      AllValid(served', |initial|) && Agrees(Act(s, i, o), CarriedOut(initial, served'))
  {
    ActAgrees(s, i, o, CarriedOut(initial, served));
    if s.threads[i].pc == ClearFlag {
      CarriedOutOne(initial, served, s.threads[i].order);
    } else {
      assert served + [] == served;
    }
  }

  // What the last step of a run adds to the orders served.
  lemma ServedOne(run: seq<State>, i: nat, o: Order)
    requires |run| > 1 && Inv(run[|run| - 2])
    requires CanAct(run[|run| - 2], i, o) && run[|run| - 1] == Act(run[|run| - 2], i, o)
    ensures var th := run[|run| - 2].threads[i];
      Served(run) == Served(run[..|run| - 1]) + if th.pc == ClearFlag then [th.order] else []
  {
    OneLeaves(run[|run| - 2], run[|run| - 1], i, o);
    assert i == 0 || i == 1;
  }

  function RoundsLeft(s: State): int {
    if |s.threads| == 2 then s.threads[0].rounds + s.threads[1].rounds else 0
  }

  // Every iteration ends in one order served: when both are done, as many orders have
  // been served as the two were given iterations.
  lemma {:induction false} EveryOrderIsServed(run: seq<State>)
    requires IsRun(run)
    ensures |Served(run)| == RoundsLeft(run[0]) - RoundsLeft(run[|run| - 1])
    ensures At(run[|run| - 1], 0, Done) && At(run[|run| - 1], 1, Done) ==>
      |Served(run)| == run[0].threads[0].rounds + run[0].threads[1].rounds
  {
    SafetyInEveryRun(run, |run| - 1);
    if |run| > 1 {
      var s, s' := run[|run| - 2], run[|run| - 1];
      Runs.Prefix(Init, Next, run);
      EveryOrderIsServed(run[..|run| - 1]);
      SafetyInEveryRun(run, |run| - 2);
      assert Runs.StepAt(Next, run, |run| - 2);
      var i: nat :| IsStepOf(s, s', i);
      var o :| CanAct(s, i, o) && s' == Act(s, i, o);
      ServedOne(run, i, o);
      ActRounds(s, i, o);
    }
  }

  lemma ActRounds(s: State, i: nat, o: Order)
    requires Inv(s) && CanAct(s, i, o)
    ensures RoundsLeft(Act(s, i, o)) == RoundsLeft(s) - if s.threads[i].pc == ClearFlag then 1 else 0
  {
    assert TransferOk(s, s.threads[i]);
  }

  predicate At(s: State, i: nat, pc: Pc) {
    i < |s.threads| && s.threads[i].pc == pc
  }

  // Thread i is between two choices.
  predicate Busy(s: State, i: nat) {
    i < |s.threads| && s.threads[i].pc != Choose && s.threads[i].pc != Done
  }

  ghost predicate BusyFrom(run: seq<State>, i: nat, k: nat, l: nat) {
    k <= l < |run| && forall m :: k <= m <= l ==> Busy(run[m], i)
  }

  function OrderOf(s: State, i: nat): Order
    requires Busy(s, i)
  {
    s.threads[i].order
  }

  lemma StepKeepsOrder(s: State, s': State, i: nat)
    requires Inv(s) && Next(s, s') && Busy(s, i) && Busy(s', i)
    ensures OrderOf(s', i) == OrderOf(s, i)
  {
  }

  // Thread i has made its way this far since its check.
  predicate OnItsWay(s: State, i: nat, before: seq<int>) {
    i < |s.threads| && InCritical(s.threads[i]) && Halfway(s.balances, s.threads[i], before)
  }

  lemma StepKeepsWay(s: State, s': State, i: nat, before: seq<int>)
    requires Inv(s) && Next(s, s') && OnItsWay(s, i, before) && Busy(s', i)
    ensures OnItsWay(s', i, before)
  {
    var t: nat :| IsStepOf(s, s', t);
    var o :| CanAct(s, t, o) && s' == Act(s, t, o);
    if t == i {
      OwnStepKeepsHalfway(s, i, o, before);
      InsideStep(s, i, o);
      if s.threads[i].pc == ClearFlag {
        LeftIsNotBusy(s, i, o);
      }
    } else {
      assert i == 1 - t;
      OtherStepKeepsHalfway(s, t, o);
    }
  }

  lemma LeftIsNotBusy(s: State, i: nat, o: Order)
    requires Inv(s) && CanAct(s, i, o) && s.threads[i].pc == ClearFlag
    ensures !Busy(Act(s, i, o), i)
  {
    assert TransferOk(s, s.threads[i]);
  }

  // What a thread ordered it keeps until it chooses again.
  lemma {:induction false} OrderIsKept(run: seq<State>, i: nat, k: nat, l: nat)
    requires IsRun(run) && BusyFrom(run, i, k, l)
    ensures Busy(run[k], i) && Busy(run[l], i) && OrderOf(run[l], i) == OrderOf(run[k], i)
    decreases l
  {
    if k < l {
      OrderIsKept(run, i, k, l - 1);
      SafetyInEveryRun(run, l - 1);
      assert Busy(run[l], i);
      assert Runs.StepAt(Next, run, l - 1);
      StepKeepsOrder(run[l - 1], run[l], i);
    }
  }

  // From its check on, thread i is inside and on its way with its transfer.
  lemma {:induction false} InsideUntilDone(run: seq<State>, i: nat, k: nat, l: nat)
    requires IsRun(run) && BusyFrom(run, i, k, l) && At(run[k], i, Check)
    ensures OnItsWay(run[l], i, run[k].balances)
    decreases l
  {
    if k == l {
      SafetyInEveryRun(run, l);
      SetsOut(run[l], i);
    } else {
      InsideUntilDone(run, i, k, l - 1);
      assert Busy(run[l], i);
      WayInStep(run, i, l - 1, run[k].balances);
    }
  }

  lemma SetsOut(s: State, i: nat)
    requires Inv(s) && At(s, i, Check)
    ensures OnItsWay(s, i, s.balances)
  {
    assert TransferOk(s, s.threads[i]);
  }

  lemma WayInStep(run: seq<State>, i: nat, m: nat, before: seq<int>)
    requires IsRun(run) && m < |run| - 1 && OnItsWay(run[m], i, before) && Busy(run[m + 1], i)
    ensures OnItsWay(run[m + 1], i, before)
  {
    SafetyInEveryRun(run, m);
    assert Runs.StepAt(Next, run, m);
    StepKeepsWay(run[m], run[m + 1], i, before);
  }

  // A thread that chose order o before run[j] transfers exactly that: between its check
  // in run[k] and the lowering of its flag in run[l], the balances lose and gain the
  // amount ordered, or are left alone if the source has too little.
  lemma TransferIsMade(run: seq<State>, i: nat, o: Order, j: nat, k: nat, l: nat)
    requires IsRun(run) && 0 < j <= k <= l < |run|
    requires At(run[j - 1], i, Choose) && CanAct(run[j - 1], i, o) && run[j] == Act(run[j - 1], i, o)
    requires BusyFrom(run, i, j, l) && At(run[k], i, Check) && At(run[l], i, ClearFlag)
    ensures o.src < |run[k].balances| && o.dst < |run[k].balances|
    ensures var before := run[k].balances;
      run[l].balances ==
      if before[o.src] < o.amount then before
      else before[o.src := before[o.src] - o.amount][o.dst := before[o.dst] + o.amount]
  {
    OrderIsKept(run, i, j, l);
    InsideUntilDone(run, i, k, l);
  }

  // ----- progress

  ghost function StepsOf(i: nat): (State, State) -> bool {
    (s, s') => IsStepOf(s, s', i)
  }

  ghost predicate BothTrying(s: State) {
    |s.threads| == 2 && Trying(s.threads[0]) && Trying(s.threads[1])
  }

  // Both are trying and turn favours thread i.
  ghost function Favours(i: nat): State -> bool {
    s => Inv(s) && BothTrying(s) && s.turn == i
  }

  ghost function SpinSteps(): (State, State) -> bool {
    (s, s') => Next(s, s') && BothTrying(s')
  }

  // The reads that thread i has still to make when turn favours it.
  function ReadsLeft(i: nat): State -> int {
    (s: State) => if i < |s.threads| && s.threads[i].pc == ReadFlag then 2 else 1
  }

  // A step that leaves both spinning brings the favoured thread closer or is not its own.
  lemma SpinStep(s: State, s': State, i: nat)
    requires Favours(i)(s) && SpinSteps()(s, s') && i < 2
    ensures Favours(i)(s')
    ensures ReadsLeft(i)(s') <= if StepsOf(i)(s, s') then ReadsLeft(i)(s) - 1 else ReadsLeft(i)(s)
  {
    NextKeepsInv(s, s');
    var k: nat :| IsStepOf(s, s', k);
    var o :| CanAct(s, k, o) && s' == Act(s, k, o);
    assert s.flag[0] && s.flag[1];
  }

  lemma SpinIsInductive(i: nat)
    requires i < 2
    ensures Runs.Inductive(Favours(i), SpinSteps(), Favours(i))
    ensures Runs.CountedLowers(SpinSteps(), Favours(i), StepsOf(i), ReadsLeft(i))
  {
    forall s, s' | Favours(i)(s) && SpinSteps()(s, s')
      ensures Favours(i)(s')
      ensures ReadsLeft(i)(s') <= if StepsOf(i)(s, s') then ReadsLeft(i)(s) - 1 else ReadsLeft(i)(s)
    {
      SpinStep(s, s', i);
    }
  }

  // As long as both are trying, a part of a run is a run of spin steps.
  lemma SpinningPart(run: seq<State>, k: nat, l: nat, i: nat)
    requires IsRun(run) && k <= l < |run| && i < 2 && run[k].turn == i
    requires forall m :: k <= m <= l ==> BothTrying(run[m])
    ensures Runs.IsRun(Favours(i), SpinSteps(), run[k..l + 1])
  {
    var part := run[k..l + 1];
    SafetyInEveryRun(run, k);
    assert BothTrying(run[k]);
    forall m | 0 <= m < |part| - 1 ensures Runs.StepAt(SpinSteps(), part, m) {
      assert Runs.StepAt(Next, run, k + m);
      assert BothTrying(run[k + m + 1]);
    }
  }

  // The two can never both spin on: as long as both are trying, turn does not change,
  // and the thread it favours acts at most once, under every schedule; its second
  // action takes it inside.
  lemma SpinningEnds(run: seq<State>, k: nat, l: nat, i: nat)
    requires IsRun(run) && k <= l < |run| && i < 2 && run[k].turn == i
    requires forall m :: k <= m <= l ==> BothTrying(run[m])
    ensures run[l].turn == i
    ensures Runs.CountSteps(StepsOf(i), run[k..l + 1]) <= 1
  {
    SpinningPart(run, k, l, i);
    SpinIsInductive(i);
    Runs.CountBound(Favours(i), SpinSteps(), Favours(i), StepsOf(i), ReadsLeft(i), run[k..l + 1]);
    Runs.InvariantHolds(Favours(i), SpinSteps(), Favours(i), run[k..l + 1], l - k);
  }

  // Thread i is trying, and its partner is not.
  ghost function TriesAlone(i: nat): State -> bool {
    s => Inv(s) && OnlyTries(s, i)
  }

  predicate OnlyTries(s: State, i: nat) {
    Shape(s) && i < 2 && Trying(s.threads[i]) && !s.flag[1 - i]
  }

  ghost function LoneSteps(i: nat): (State, State) -> bool {
    (s, s') => Next(s, s') && OnlyTries(s', i)
  }

  function ReadsLeftAlone(i: nat): State -> int {
    (s: State) => if i < |s.threads| && s.threads[i].pc == ReadTurn then 1 else 0
  }

  lemma LoneStep(s: State, s': State, i: nat)
    requires TriesAlone(i)(s) && LoneSteps(i)(s, s')
    ensures TriesAlone(i)(s')
    ensures ReadsLeftAlone(i)(s') <= if StepsOf(i)(s, s') then ReadsLeftAlone(i)(s) - 1 else ReadsLeftAlone(i)(s)
  {
    NextKeepsInv(s, s');
    var k: nat :| IsStepOf(s, s', k);
    var o :| CanAct(s, k, o) && s' == Act(s, k, o);
  }

  lemma TriesAloneIsInductive(i: nat)
    ensures Runs.Inductive(TriesAlone(i), LoneSteps(i), TriesAlone(i))
    ensures Runs.CountedLowers(LoneSteps(i), TriesAlone(i), StepsOf(i), ReadsLeftAlone(i))
  {
    forall s, s' | TriesAlone(i)(s) && LoneSteps(i)(s, s')
      ensures TriesAlone(i)(s')
      ensures ReadsLeftAlone(i)(s') <= if StepsOf(i)(s, s') then ReadsLeftAlone(i)(s) - 1 else ReadsLeftAlone(i)(s)
    {
      LoneStep(s, s', i);
    }
  }

  lemma LonePart(run: seq<State>, k: nat, l: nat, i: nat)
    requires IsRun(run) && k <= l < |run|
    requires forall m :: k <= m <= l ==> OnlyTries(run[m], i)
    ensures Runs.IsRun(TriesAlone(i), LoneSteps(i), run[k..l + 1])
  {
    var part := run[k..l + 1];
    SafetyInEveryRun(run, k);
    assert OnlyTries(run[k], i);
    forall m | 0 <= m < |part| - 1 ensures Runs.StepAt(LoneSteps(i), part, m) {
      assert Runs.StepAt(Next, run, k + m);
      assert OnlyTries(run[k + m + 1], i);
    }
  }

  // Nor does a thread spin when its partner's flag is down: it acts at most once before
  // the action that takes it inside.
  lemma LoneThreadEnters(run: seq<State>, k: nat, l: nat, i: nat)
    requires IsRun(run) && k <= l < |run|
    requires forall m :: k <= m <= l ==> OnlyTries(run[m], i)
    ensures Runs.CountSteps(StepsOf(i), run[k..l + 1]) <= 1
  {
    LonePart(run, k, l, i);
    TriesAloneIsInductive(i);
    Runs.CountBound(TriesAlone(i), LoneSteps(i), TriesAlone(i), StepsOf(i), ReadsLeftAlone(i), run[k..l + 1]);
  }

  // ----- the program, its shared variables updated in place

  // transfer(): false is the -1 the function returns when src has too little.
  method Transfer(balances: array<int>, src: nat, dst: nat, amount: int) returns (ok: bool)
    requires src < balances.Length && dst < balances.Length
    modifies balances
    ensures ok <==> old(balances[src]) >= amount
    ensures !ok ==> balances[..] == old(balances[..])
    ensures src != dst ==> balances[..] == Transferred(old(balances[..]), Order(src, dst, amount))
    ensures ok && src != dst ==>
      balances[..] == old(balances[..])[src := old(balances[src]) - amount][dst := old(balances[dst]) + amount]
    ensures Total(balances[..]) == old(Total(balances[..]))
  {
    if balances[src] < amount {
      return false;
    }
    ghost var before := balances[..];
    balances[src] := balances[src] - amount;
    ghost var between := balances[..];
    balances[dst] := balances[dst] + amount;
    SumByUpdate(before, Balance, src, before[src] - amount);
    SumByUpdate(between, Balance, dst, between[dst] + amount);
    assert between == before[src := before[src] - amount];
    assert balances[..] == between[dst := between[dst] + amount];
    return true;
  }

  method TotalBalance(balances: array<int>) returns (total: int)
    ensures total == Total(balances[..])
  {
    total := 0;
    for i := 0 to balances.Length
      invariant total == Total(balances[..i])
    {
      total := total + balances[i];
      assert balances[..i + 1][..i] == balances[..i];
    }
    assert balances[..balances.Length] == balances[..];
  }

  class Bank {
    const flag: array<bool>
    var turn: nat
    const balances: array<int>
    const threads: array<Thread>

    ghost predicate Valid()
      reads this
    {
      flag.Length == 2 && threads.Length == 2
    }

    ghost function View(): State
      reads this, flag, balances, threads
    {
      State(flag[..], turn, balances[..], threads[..])
    }

    constructor (accounts: nat, initialBalance: nat, iterations: nat)
      requires accounts >= 2
      ensures Valid() && Init(View()) && fresh(flag) && fresh(balances) && fresh(threads)
      ensures balances.Length == accounts && forall a :: 0 <= a < accounts ==> balances[a] == initialBalance
      ensures threads[0].rounds == threads[1].rounds == iterations
    {
      flag := new bool[2](i => false);
      turn := 0;
      balances := new int[accounts](a => initialBalance);
      threads := new Thread[2](i => Begin(Thread(Done, 0, Order(0, 0, 0), 0, 0), iterations));
      new;
      assert flag[..] == [false, false];
    }

    // Thread i performs its next action outside the transfer and the spin loop: it
    // chooses an order, or takes a step of peterson_mutex_lock or _unlock.
    method LockAction(i: nat, o: Order)
      requires Valid() && Inv(View()) && CanAct(View(), i, o)
      requires threads[i].pc in {Choose, SetFlag, SetTurn, ClearFlag}
      modifies this`turn, flag, threads
      ensures View() == Act(old(View()), i, o)
    {
      var th := threads[i];
      if th.pc == Choose {
        threads[i] := th.(pc := SetFlag, order := o);
      } else if th.pc == SetFlag {
        flag[i] := true;
        threads[i] := th.(pc := SetTurn);
      } else if th.pc == SetTurn {
        turn := 1 - i;
        threads[i] := th.(pc := ReadFlag, overtaken := 0);
      } else {
        flag[i] := false;
        threads[i] := NextIteration(th);
      }
    }

    // Thread i makes one of the two reads of its spin loop.
    method SpinAction(i: nat, o: Order)
      requires Valid() && Inv(View()) && CanAct(View(), i, o)
      requires threads[i].pc in {ReadFlag, ReadTurn}
      modifies threads
      ensures View() == Act(old(View()), i, o)
    {
      var j, th := 1 - i, threads[i];
      if th.pc == ReadFlag && flag[j] {
        threads[i] := th.(pc := ReadTurn);
      } else if th.pc == ReadTurn && turn == j {
        threads[i] := th.(pc := ReadFlag);
      } else {
        Enter(i);
      }
    }

    // Thread i, inside, reads a balance.
    method ReadBalance(i: nat, o: Order)
      requires Valid() && Inv(View()) && CanAct(View(), i, o)
      requires threads[i].pc in {Check, LoadSrc, LoadDst}
      modifies threads
      ensures View() == Act(old(View()), i, o)
    {
      var th := threads[i];
      assert TransferOk(View(), th);
      if th.pc == Check {
        threads[i] := th.(pc := if balances[th.order.src] < th.order.amount then ClearFlag else LoadSrc);
      } else if th.pc == LoadSrc {
        threads[i] := th.(pc := StoreSrc, loaded := balances[th.order.src]);
      } else {
        threads[i] := th.(pc := StoreDst, loaded := balances[th.order.dst]);
      }
    }

    // Thread i, inside, writes a balance.
    method WriteBalance(i: nat, o: Order)
      requires Valid() && Inv(View()) && CanAct(View(), i, o)
      requires threads[i].pc in {StoreSrc, StoreDst}
      modifies balances, threads
      ensures View() == Act(old(View()), i, o)
    {
      var th := threads[i];
      assert TransferOk(View(), th);
      if th.pc == StoreSrc {
        balances[th.order.src] := th.loaded - th.order.amount;
        threads[i] := th.(pc := LoadDst);
      } else {
        balances[th.order.dst] := th.loaded + th.order.amount;
        threads[i] := th.(pc := ClearFlag);
      }
    }

    // Thread i leaves the spin loop.
    method Enter(i: nat)
      requires Valid() && i < 2
      modifies threads
      ensures threads[i] == old(threads[i]).(pc := Check)
      ensures threads[1 - i] == old(threads[1 - i]).(overtaken := old(threads[1 - i]).overtaken + 1)
    {
      threads[i] := threads[i].(pc := Check);
      threads[1 - i] := threads[1 - i].(overtaken := threads[1 - i].overtaken + 1);
    }
  }
}
