// The readers-writers monitor of sync2/code/readers_writers_cv.c: one mutex,
// one condition variable shared by readers and writers, any number of each.
// The last reader to leave signals once; a leaving writer broadcasts.
module ReadersWriters {
  import Runs
  import opened Sums

  datatype Role = Reader | Writer

  // Where a thread is.  Code between locking mtx and unlocking it, or waiting on
  // cv, is one step: no other thread touches the counts in between.
  datatype Pc =
    | Entering     // about to lock mtx for the entry section
    | Waiting      // in the wait set of cv
    | Woken        // out of the wait set, about to lock mtx again and recheck
    | Using        // inside: a reader reads, a writer loads shared_data
    | Storing      // inside: a writer stores shared_data
    | Leaving      // inside: about to lock mtx for the exit section

  // "writes" counts a writer's completed updates.
  datatype Thread = Thread(role: Role, pc: Pc, loaded: int, writes: nat)

  datatype State = State(readersCount: int, writersCount: int, data: int, threads: seq<Thread>)

  ghost predicate Init(s: State) {
    && s.readersCount == 0 && s.writersCount == 0
    && forall t :: 0 <= t < |s.threads| ==> s.threads[t] == Thread(s.threads[t].role, Entering, 0, 0)
  }

  predicate Inside(th: Thread) {
    th.pc in {Using, Storing, Leaving}
  }

  // The condition of the while loop around pthread_cond_wait.
  predicate MustWait(s: State, role: Role) {
    if role == Writer then s.readersCount > 0 || s.writersCount > 0 else s.writersCount > 0
  }

  predicate IsWaiting(s: State, w: nat) {
    w < |s.threads| && s.threads[w].pc == Waiting
  }

  // pthread_cond_broadcast
  function WakeAll(threads: seq<Thread>): (r: seq<Thread>)
    ensures |r| == |threads|
    ensures forall i :: 0 <= i < |r| ==>
      r[i] == if threads[i].pc == Waiting then threads[i].(pc := Woken) else threads[i]
  {
    seq(|threads|, i requires 0 <= i < |threads| =>
      if threads[i].pc == Waiting then threads[i].(pc := Woken) else threads[i])
  }

  // pthread_cond_signal, reaching thread w
  function WakeOne(threads: seq<Thread>, w: nat): seq<Thread>
    requires w < |threads|
  {
    if threads[w].pc == Waiting then threads[w := threads[w].(pc := Woken)] else threads
  }

  // The exit section of this thread ends in a signal.
  predicate Signals(s: State, th: Thread) {
    th.role == Reader && th.pc == Leaving && s.readersCount == 1
  }

  // Thread t can act; if its action signals, the signal reaches w, which is a
  // waiting thread unless nobody waits.
  predicate CanAct(s: State, t: nat, w: nat) {
    && t < |s.threads| && w < |s.threads|
    && s.threads[t].pc != Waiting
    && (Signals(s, s.threads[t]) && (exists u :: 0 <= u < |s.threads| && IsWaiting(s, u)) ==> IsWaiting(s, w))
  }

  function ActorAfter(s: State, th: Thread): Thread {
    match th.pc
    case Waiting => th.(pc := Woken)
    case Using => if th.role == Writer then th.(pc := Storing, loaded := s.data) else th.(pc := Leaving)
    case Storing => th.(pc := Leaving, writes := th.writes + 1)
    case Leaving => th.(pc := Entering)
    case _ => th.(pc := if MustWait(s, th.role) then Waiting else Using)
  }

  function OthersAfter(s: State, th: Thread, w: nat): seq<Thread>
    requires w < |s.threads|
  {
    if th.role == Writer && th.pc == Leaving then WakeAll(s.threads)
    else if Signals(s, th) then WakeOne(s.threads, w)
    else s.threads
  }

  // How the action changes the count of the threads with this role inside.
  function CountChange(s: State, th: Thread, role: Role): int {
    if th.role != role then 0
    else if th.pc in {Entering, Woken} && !MustWait(s, role) then 1
    else if th.pc == Leaving then -1
    else 0
  }

  function Act(s: State, t: nat, w: nat): State
    requires t < |s.threads| && w < |s.threads|
  {
    var th := s.threads[t];
    State(
      s.readersCount + CountChange(s, th, Reader),
      s.writersCount + CountChange(s, th, Writer),
      if th.pc == Storing then th.loaded + 10 else s.data,
      OthersAfter(s, th, w)[t := ActorAfter(s, th)])
  }

  // pthread_cond_wait may return without a signal.
  function WakeSpuriously(s: State, t: nat): State
    requires IsWaiting(s, t)
  {
    s.(threads := WakeOne(s.threads, t))
  }

  ghost predicate Next(s: State, s': State) {
    || (exists t: nat, w: nat :: CanAct(s, t, w) && s' == Act(s, t, w))
    || (exists t: nat :: IsWaiting(s, t) && s' == WakeSpuriously(s, t))
  }

  // ----- the invariant

  function InsideAs(role: Role): Thread -> int {
    (th: Thread) => if th.role == role && Inside(th) then 1 else 0
  }

  function Writes(th: Thread): int { th.writes }

  ghost predicate CountsMatch(s: State) {
    && s.readersCount == SumBy(s.threads, InsideAs(Reader))
    && s.writersCount == SumBy(s.threads, InsideAs(Writer))
  }

  // Several readers or one writer.
  ghost predicate Exclusion(s: State) {
    && 0 <= s.readersCount && 0 <= s.writersCount <= 1
    && (s.writersCount == 1 ==> s.readersCount == 0)
  }

  // Only writers wait once no writer is inside.
  ghost predicate OnlyWritersWait(s: State) {
    s.writersCount == 0 ==>
      forall t :: 0 <= t < |s.threads| && s.threads[t].pc == Waiting ==> s.threads[t].role == Writer
  }

  // When nobody is inside but somebody waits, a writer is already awake.
  ghost predicate SomebodyIsWoken(s: State) {
    s.readersCount == 0 && s.writersCount == 0 && (exists t :: 0 <= t < |s.threads| && s.threads[t].pc == Waiting) ==>
      exists u :: 0 <= u < |s.threads| && s.threads[u].role == Writer && s.threads[u].pc == Woken
  }

  // What a writer has loaded is still the current value; readers never store.
  ghost predicate LoadedCurrent(s: State) {
    forall t :: 0 <= t < |s.threads| && s.threads[t].pc == Storing ==>
      s.threads[t].role == Writer && s.threads[t].loaded == s.data
  }

  ghost predicate Inv(s: State) {
    CountsMatch(s) && Exclusion(s) && OnlyWritersWait(s) && SomebodyIsWoken(s) && LoadedCurrent(s)
  }

  lemma OthersSum(s: State, th: Thread, w: nat, f: Thread -> int)
    requires w < |s.threads|
    requires forall x: Thread :: x.pc == Waiting ==> f(x) == f(x.(pc := Woken))
    ensures SumBy(OthersAfter(s, th, w), f) == SumBy(s.threads, f)
  {
    SumByEqual(OthersAfter(s, th, w), f, s.threads, f);
  }

  lemma ActSum(s: State, t: nat, w: nat, f: Thread -> int)
    requires CanAct(s, t, w)
    requires forall x: Thread :: x.pc == Waiting ==> f(x) == f(x.(pc := Woken))
    ensures SumBy(Act(s, t, w).threads, f) == SumBy(s.threads, f) - f(s.threads[t]) + f(ActorAfter(s, s.threads[t]))
  {
    OthersSum(s, s.threads[t], w, f);
    SumByUpdate(OthersAfter(s, s.threads[t], w), f, t, ActorAfter(s, s.threads[t]));
  }

  lemma ActKeepsCounts(s: State, t: nat, w: nat)
    requires Inv(s) && CanAct(s, t, w)
    ensures CountsMatch(Act(s, t, w))
  {
    ActSum(s, t, w, InsideAs(Reader));
    ActSum(s, t, w, InsideAs(Writer));
  }

  // A thread that is inside is counted.
  lemma InsideIsCounted(s: State, t: nat)
    requires CountsMatch(s) && t < |s.threads| && Inside(s.threads[t])
    ensures 1 <= if s.threads[t].role == Reader then s.readersCount else s.writersCount
  {
    SumByAtLeast(s.threads, InsideAs(s.threads[t].role), t);
  }

  lemma ActKeepsExclusion(s: State, t: nat, w: nat)
    requires Inv(s) && CanAct(s, t, w)
    ensures Exclusion(Act(s, t, w))
  {
    if Inside(s.threads[t]) {
      InsideIsCounted(s, t);
    }
  }

  lemma ActKeepsWaiters(s: State, t: nat, w: nat)
    requires Inv(s) && CanAct(s, t, w)
    ensures OnlyWritersWait(Act(s, t, w)) && SomebodyIsWoken(Act(s, t, w))
  {
    var s', th := Act(s, t, w), s.threads[t];
    if Inside(th) {
      InsideIsCounted(s, t);
    }
    if Signals(s, th) && s'.writersCount == 0 && exists u :: 0 <= u < |s'.threads| && s'.threads[u].pc == Waiting {
      var u :| 0 <= u < |s'.threads| && s'.threads[u].pc == Waiting;
      assert IsWaiting(s, u);
      assert s'.threads[w].pc == Woken;
    }
  }

  lemma ActKeepsLoaded(s: State, t: nat, w: nat)
    requires Inv(s) && CanAct(s, t, w)
    ensures LoadedCurrent(Act(s, t, w))
  {
    var s', th := Act(s, t, w), s.threads[t];
    if th.pc == Storing {
      forall u | 0 <= u < |s.threads| && u != t ensures s'.threads[u].pc != Storing {
        if s.threads[u].pc == Storing {
          SumByAtLeastTwo(s.threads, InsideAs(Writer), if t < u then t else u, if t < u then u else t);
        }
      }
    }
  }

  lemma ActKeepsInv(s: State, t: nat, w: nat)
    requires Inv(s) && CanAct(s, t, w)
    ensures Inv(Act(s, t, w))
  {
    ActKeepsCounts(s, t, w);
    ActKeepsExclusion(s, t, w);
    ActKeepsWaiters(s, t, w);
    ActKeepsLoaded(s, t, w);
  }

  lemma SpuriousKeepsInv(s: State, t: nat)
    requires Inv(s) && IsWaiting(s, t)
    ensures Inv(WakeSpuriously(s, t))
  {
    var s' := WakeSpuriously(s, t);
    SumByUpdate(s.threads, InsideAs(Reader), t, s'.threads[t]);
    SumByUpdate(s.threads, InsideAs(Writer), t, s'.threads[t]);
    assert s'.threads[t].pc == Woken;
    if u :| 0 <= u < |s.threads| && s.threads[u].role == Writer && s.threads[u].pc == Woken {
      assert s'.threads[u].pc == Woken;
    }
  }

  lemma NextKeepsInv(s: State, s': State)
    requires Inv(s) && Next(s, s')
    ensures Inv(s')
  {
    if t: nat, w: nat :| CanAct(s, t, w) && s' == Act(s, t, w) {
      ActKeepsInv(s, t, w);
    } else {
      var t: nat :| IsWaiting(s, t) && s' == WakeSpuriously(s, t);
      SpuriousKeepsInv(s, t);
    }
  }

  // ----- results about whole runs

  ghost predicate IsRun(run: seq<State>) {
    Runs.IsRun(Init, Next, run)
  }

  lemma InvInit(s: State)
    requires Init(s)
    ensures Inv(s)
  {
    SumByBounds(s.threads, InsideAs(Reader), 0, 0);
    SumByBounds(s.threads, InsideAs(Writer), 0, 0);
  }

  lemma InvIsInductive()
    ensures Runs.Inductive(Init, Next, Inv)
  {
    forall s | Init(s) ensures Inv(s) { InvInit(s); }
    forall s, s' | Inv(s) && Next(s, s') ensures Inv(s') { NextKeepsInv(s, s'); }
  }

  // The counts always say how many readers and writers are inside; a writer is
  // alone; no reader waits without a writer inside; and nobody is left waiting
  // at an empty monitor without a woken writer on its way.
  lemma SafetyInEveryRun(run: seq<State>, i: nat)
    requires IsRun(run) && i < |run|
    ensures Inv(run[i])
    ensures run[i].writersCount <= 1 && !(run[i].writersCount > 0 && run[i].readersCount > 0)
    ensures OnlyWritersWait(run[i]) && SomebodyIsWoken(run[i])
  {
    InvIsInductive();
    Runs.InvariantHolds(Init, Next, Inv, run, i);
  }

  // Two threads inside at the same time are both readers.
  lemma InsideTogether(s: State, t: nat, u: nat)
    requires Inv(s) && t < u < |s.threads| && Inside(s.threads[t]) && Inside(s.threads[u])
    ensures s.threads[t].role == Reader && s.threads[u].role == Reader
  {
    InsideIsCounted(s, t);
    InsideIsCounted(s, u);
    if s.threads[t].role == Writer && s.threads[u].role == Writer {
      SumByAtLeastTwo(s.threads, InsideAs(Writer), t, u);
    }
  }

  // The one signal sent by the last reader cannot be spent on another reader:
  // whichever waiter it reaches is a writer, and that writer can enter at once
  // unless somebody else enters first; all other waiters go on waiting.
  lemma LastSignalReachesWriter(run: seq<State>, i: nat, t: nat, w: nat)
    requires IsRun(run) && i < |run| && CanAct(run[i], t, w) && Signals(run[i], run[i].threads[t])
    requires exists u :: 0 <= u < |run[i].threads| && IsWaiting(run[i], u)
    ensures var s' := Act(run[i], t, w);
      && s'.threads[w].role == Writer && s'.threads[w].pc == Woken
      && !MustWait(s', Writer)
      && CanAct(s', w, w) && Inside(Act(s', w, w).threads[w])
      && forall u :: 0 <= u < |run[i].threads| && u != w && IsWaiting(run[i], u) ==> IsWaiting(s', u)
  {
    SafetyInEveryRun(run, i);
  }

  // It never happens that everybody waits.
  lemma NeverAllWaiting(s: State)
    requires Inv(s) && |s.threads| > 0
    ensures exists t, w :: CanAct(s, t, w)
  {
    if t :| 0 <= t < |s.threads| && s.threads[t].pc != Waiting {
      if u :| 0 <= u < |s.threads| && IsWaiting(s, u) {
        assert CanAct(s, t, u);
      } else {
        assert CanAct(s, t, t);
      }
    } else {
      assert IsWaiting(s, 0);
      SumByBounds(s.threads, InsideAs(Reader), 0, 0);
      SumByBounds(s.threads, InsideAs(Writer), 0, 0);
    }
  }

  // The shared value without what the completed writes have added.
  function Base(s: State): int {
    s.data - 10 * SumBy(s.threads, Writes)
  }

  lemma ActKeepsBase(s: State, t: nat, w: nat)
    requires Inv(s) && CanAct(s, t, w)
    ensures Base(Act(s, t, w)) == Base(s)
  {
    ActSum(s, t, w, Writes);
  }

  lemma NextKeepsBase(s: State, s': State)
    requires Inv(s) && Next(s, s')
    ensures Base(s') == Base(s)
  {
    if t: nat, w: nat :| CanAct(s, t, w) && s' == Act(s, t, w) {
      ActKeepsBase(s, t, w);
    } else {
      var t: nat :| IsWaiting(s, t) && s' == WakeSpuriously(s, t);
      SumByUpdate(s.threads, Writes, t, s'.threads[t]);
    }
  }

  lemma BaseIsKept()
    ensures Runs.Keeps(Next, Inv, Base)
  {
    forall s, s' | Inv(s) && Next(s, s') ensures Base(s') == Base(s) { NextKeepsBase(s, s'); }
  }

  // No update is lost: the shared value is its first value plus ten for every
  // completed write, although each write loads and stores in two steps.
  lemma NoUpdateIsLost(run: seq<State>, i: nat)
    requires IsRun(run) && i < |run|
    ensures run[i].data == run[0].data + 10 * SumBy(run[i].threads, Writes)
  {
    InvIsInductive();
    BaseIsKept();
    Runs.Conserved(Init, Next, Inv, Base, run, i);
    SumByBounds(run[0].threads, Writes, 0, 0);
  }

  // A writer leaves.
  ghost predicate WriterExits(s: State, s': State) {
    exists t: nat, w: nat :: CanAct(s, t, w) && IsExit(s.threads[t]) && s' == Act(s, t, w)
  }

  predicate IsExit(th: Thread) {
    th.role == Writer && th.pc == Leaving
  }

  function AtExit(th: Thread): int {
    if IsExit(th) then 1 else 0
  }

  // The updates of a thread's earlier visits.
  function EarlierWrites(th: Thread): int {
    th.writes - AtExit(th)
  }

  function Exited(s: State): int {
    SumBy(s.threads, EarlierWrites)
  }

  // A thread makes one update in a visit, before it is about to leave.
  lemma ActExited(s: State, t: nat, w: nat)
    requires Inv(s) && CanAct(s, t, w)
    ensures Exited(Act(s, t, w)) == Exited(s) + AtExit(s.threads[t])
  {
    ActSum(s, t, w, EarlierWrites);
  }

  lemma SpuriousExited(s: State, t: nat)
    requires IsWaiting(s, t)
    ensures Exited(WakeSpuriously(s, t)) == Exited(s)
  {
    SumByUpdate(s.threads, EarlierWrites, t, s.threads[t].(pc := Woken));
  }

  lemma StepExited(s: State, s': State)
    requires Inv(s) && Next(s, s')
    ensures Exited(s') == Exited(s) + if WriterExits(s, s') then 1 else 0
  {
    if WriterExits(s, s') {
      var t: nat, w: nat :| CanAct(s, t, w) && IsExit(s.threads[t]) && s' == Act(s, t, w);
      ActExited(s, t, w);
    } else if t: nat, w: nat :| CanAct(s, t, w) && s' == Act(s, t, w) {
      ActExited(s, t, w);
    } else {
      var t: nat :| IsWaiting(s, t) && s' == WakeSpuriously(s, t);
      SpuriousExited(s, t);
    }
  }

  lemma ExitedInStep(run: seq<State>, m: nat)
    requires IsRun(run) && m < |run| - 1
    ensures Exited(run[m + 1]) == Exited(run[m]) + if Runs.StepAt(WriterExits, run, m) then 1 else 0
  {
    SafetyInEveryRun(run, m);
    assert Runs.StepAt(Next, run, m);
    StepExited(run[m], run[m + 1]);
  }

  lemma NoneExited(s: State)
    requires Init(s)
    ensures Exited(s) == 0
  {
    SumByBounds(s.threads, EarlierWrites, 0, 0);
  }

  lemma ExitedIsCounted(run: seq<State>, i: nat)
    requires IsRun(run) && i < |run|
    ensures Exited(run[i]) == Runs.CountSteps(WriterExits, run[..i + 1])
  {
    forall m | 0 <= m < i
      ensures Exited(run[m + 1]) == Exited(run[m]) + if Runs.StepAt(WriterExits, run, m) then 1 else 0
    {
      ExitedInStep(run, m);
    }
    Runs.CountExactly(WriterExits, Exited, run, 0, i);
    NoneExited(run[0]);
  }

  // Every visit of a writer adds ten, once: the shared value is its first value plus ten
  // for every exit section that writers have taken and for a writer about to take one.
  lemma EveryVisitUpdates(run: seq<State>, i: nat)
    requires IsRun(run) && i < |run|
    ensures run[i].data ==
      run[0].data + 10 * (Runs.CountSteps(WriterExits, run[..i + 1]) + SumBy(run[i].threads, AtExit))
  {
    NoUpdateIsLost(run, i);
    ExitedIsCounted(run, i);
    SumByPlus(run[i].threads, EarlierWrites, AtExit, Writes);
  }

  predicate ReaderInside(s: State, t: nat) {
    t < |s.threads| && s.threads[t].role == Reader && Inside(s.threads[t])
  }

  lemma StepBesidesReader(s: State, s': State, t: nat)
    requires Inv(s) && Next(s, s') && ReaderInside(s, t)
    ensures s'.data == s.data
  {
    InsideIsCounted(s, t);
    if u: nat, w: nat :| CanAct(s, u, w) && s' == Act(s, u, w) {
      if s.threads[u].pc == Storing {
        InsideIsCounted(s, u);
        assert false;
      }
    }
  }

  // As long as a reader is inside the shared value stays the same.
  lemma {:induction false} ReaderSeesOneValue(run: seq<State>, t: nat, i: nat, j: nat)
    requires IsRun(run) && i <= j < |run|
    requires forall m :: i <= m < j ==> ReaderInside(run[m], t)
    ensures run[j].data == run[i].data
    decreases j
  {
    if i < j {
      ReaderSeesOneValue(run, t, i, j - 1);
      SafetyInEveryRun(run, j - 1);
      assert Runs.StepAt(Next, run, j - 1);
      StepBesidesReader(run[j - 1], run[j], t);
    }
  }

  // ----- who can be kept out

  ghost function RolesOf(s: State): seq<Role> {
    seq(|s.threads|, t requires 0 <= t < |s.threads| => s.threads[t].role)
  }

  // Threads t and u cannot be inside together.
  predicate Conflict(roles: seq<Role>, t: nat, u: nat) {
    t < |roles| && u < |roles| && u != t && (roles[t] == Writer || roles[u] == Writer)
  }

  // Thread u completes a turn.
  ghost function TurnsOf(u: nat): (State, State) -> bool {
    (s, s') => exists w: nat :: CanAct(s, u, w) && s.threads[u].pc == Leaving && s' == Act(s, u, w)
  }

  // Thread t asks to enter, for the first time or woken up, and has to wait.
  ghost function TurnsAway(t: nat): (State, State) -> bool {
    (s: State, s': State) =>
      && t < |s.threads| && t < |s'.threads|
      && s.threads[t].pc in {Entering, Woken} && s'.threads[t].pc == Waiting
  }

  ghost predicate NeverInside(run: seq<State>, t: nat) {
    forall i :: 0 <= i < |run| ==> t < |run[i].threads| && !Inside(run[i].threads[t])
  }

  // In this run thread u has taken these turns, while thread t has been turned away
  // so many times and has never been inside.
  ghost predicate KeepsOut(run: seq<State>, roles: seq<Role>, t: nat, u: nat, turns: int, away: int) {
    && IsRun(run) && RolesOf(run[0]) == roles && NeverInside(run, t)
    && turns <= Runs.CountSteps(TurnsOf(u), run) && away <= Runs.CountSteps(TurnsAway(t), run)
  }

  // Threads t and u are there, u is inside or not, and the others have done nothing.
  predicate Pair(s: State, roles: seq<Role>, t: nat, u: nat, pcT: Pc, pcU: Pc) {
    && Conflict(roles, t, u) && |s.threads| == |roles|
    && (forall v :: 0 <= v < |roles| ==> s.threads[v].role == roles[v])
    && (forall v :: 0 <= v < |roles| && v != t && v != u ==> s.threads[v].pc == Entering)
    && s.threads[t].pc == pcT && s.threads[u].pc == pcU
    && s.readersCount == (if pcU != Entering && roles[u] == Reader then 1 else 0)
    && s.writersCount == (if pcU != Entering && roles[u] == Writer then 1 else 0)
  }

  lemma ActOn(
      run: seq<State>, roles: seq<Role>, t: nat, u: nat, turns: int, away: int, actor: nat, w: nat)
    returns (longer: seq<State>)
    requires KeepsOut(run, roles, t, u, turns, away)
    requires CanAct(run[|run| - 1], actor, w)
    requires var s' := Act(run[|run| - 1], actor, w); t < |s'.threads| && !Inside(s'.threads[t])
    ensures var s, s' := run[|run| - 1], Act(run[|run| - 1], actor, w);
      && longer != [] && longer[|longer| - 1] == s'
      && KeepsOut(longer, roles, t, u,
                  turns + (if actor == u && s.threads[u].pc == Leaving then 1 else 0),
                  away + (if TurnsAway(t)(s, s') then 1 else 0))
  {
    var s, s' := run[|run| - 1], Act(run[|run| - 1], actor, w);
    Runs.Extend(Init, Next, run, s');
    Runs.CountExtended(TurnsOf(u), run, s');
    Runs.CountExtended(TurnsAway(t), run, s');
    longer := run + [s'];
  }

  // Thread u, inside, goes on to its exit section.
  lemma UsesOn(run: seq<State>, roles: seq<Role>, t: nat, u: nat, turns: int, away: int) returns (longer: seq<State>)
    requires KeepsOut(run, roles, t, u, turns, away) && Pair(run[|run| - 1], roles, t, u, Waiting, Using)
    ensures KeepsOut(longer, roles, t, u, turns, away) && Pair(longer[|longer| - 1], roles, t, u, Waiting, Leaving)
  {
    longer := ActOn(run, roles, t, u, turns, away, u, t);
    if roles[u] == Writer {
      longer := ActOn(longer, roles, t, u, turns, away, u, t);
    }
  }

  // It leaves, and wakes thread t.
  lemma LeavesOn(run: seq<State>, roles: seq<Role>, t: nat, u: nat, turns: int, away: int) returns (longer: seq<State>)
    requires KeepsOut(run, roles, t, u, turns, away) && Pair(run[|run| - 1], roles, t, u, Waiting, Leaving)
    ensures KeepsOut(longer, roles, t, u, turns + 1, away) && Pair(longer[|longer| - 1], roles, t, u, Woken, Entering)
  {
    assert IsWaiting(run[|run| - 1], t);
    longer := ActOn(run, roles, t, u, turns, away, u, t);
  }

  // It enters again before thread t does, which is turned away.
  lemma EntersFirst(run: seq<State>, roles: seq<Role>, t: nat, u: nat, turns: int, away: int, pc: Pc)
    returns (longer: seq<State>)
    requires KeepsOut(run, roles, t, u, turns, away)
    requires pc in {Entering, Woken} && Pair(run[|run| - 1], roles, t, u, pc, Entering)
    ensures KeepsOut(longer, roles, t, u, turns, away + 1) && Pair(longer[|longer| - 1], roles, t, u, Waiting, Using)
  {
    longer := ActOn(run, roles, t, u, turns, away, u, t);
    longer := ActOn(longer, roles, t, u, turns, away, t, t);
  }

  lemma Start(roles: seq<Role>, t: nat, u: nat) returns (run: seq<State>)
    requires Conflict(roles, t, u)
    ensures KeepsOut(run, roles, t, u, 0, 0) && Pair(run[|run| - 1], roles, t, u, Entering, Entering)
  {
    var threads := seq(|roles|, v requires 0 <= v < |roles| => Thread(roles[v], Entering, 0, 0));
    run := [State(0, 0, 0, threads)];
    assert RolesOf(run[0]) == roles;
  }

  // A thread can keep out any thread that it cannot be inside with, for any number
  // of turns.
  lemma {:induction false} KeepsOutFor(roles: seq<Role>, t: nat, u: nat, turns: nat) returns (run: seq<State>)
    requires Conflict(roles, t, u)
    ensures KeepsOut(run, roles, t, u, turns, turns + 1) && Pair(run[|run| - 1], roles, t, u, Waiting, Using)
    decreases turns
  {
    if turns == 0 {
      run := Start(roles, t, u);
      run := EntersFirst(run, roles, t, u, 0, 0, Entering);
    } else {
      run := KeepsOutFor(roles, t, u, turns - 1);
      run := UsesOn(run, roles, t, u, turns - 1, turns);
      run := LeavesOn(run, roles, t, u, turns - 1, turns);
      run := EntersFirst(run, roles, t, u, turns, turns, Woken);
    }
  }

  lemma RolesStay(s: State, s': State)
    requires Next(s, s')
    ensures RolesOf(s') == RolesOf(s)
  {
  }

  lemma RolesAreKept()
    ensures Runs.Keeps(Next, Inv, RolesOf)
  {
    forall s, s' | Inv(s) && Next(s, s') ensures RolesOf(s') == RolesOf(s) { RolesStay(s, s'); }
  }

  lemma RolesInRun(run: seq<State>, i: nat)
    requires IsRun(run) && i < |run|
    ensures RolesOf(run[i]) == RolesOf(run[0])
  {
    InvIsInductive();
    RolesAreKept();
    Runs.Conserved(Init, Next, Inv, RolesOf, run, i);
  }

  // If a role is counted inside, a thread with this role is inside.
  lemma SomebodyInside(s: State, role: Role) returns (u: nat)
    requires CountsMatch(s) && (if role == Reader then s.readersCount else s.writersCount) > 0
    ensures u < |s.threads| && s.threads[u].role == role && Inside(s.threads[u])
  {
    if v :| 0 <= v < |s.threads| && s.threads[v].role == role && Inside(s.threads[v]) {
      u := v;
    } else {
      SumByBounds(s.threads, InsideAs(role), 0, 0);
      assert false;
    }
  }

  // Only a thread that it cannot be inside with turns a thread away.
  lemma TurnedAwayByConflict(run: seq<State>, i: nat, t: nat)
    requires IsRun(run) && i < |run| - 1 && Runs.StepAt(TurnsAway(t), run, i)
    ensures exists u :: Conflict(RolesOf(run[0]), t, u)
  {
    var s := run[i];
    SafetyInEveryRun(run, i);
    RolesInRun(run, i);
    assert Runs.StepAt(Next, run, i);
    assert MustWait(s, s.threads[t].role);
    var u := SomebodyInside(s, if s.writersCount > 0 then Writer else Reader);
    assert RolesOf(s)[t] == s.threads[t].role && RolesOf(s)[u] == s.threads[u].role;
    assert Conflict(RolesOf(run[0]), t, u);
  }

  // Some run keeps thread t out for that many turns of another thread, and turns it
  // away as often.
  ghost predicate CanBeKeptOut(roles: seq<Role>, t: nat, turns: nat) {
    exists run, u: nat :: u != t && KeepsOut(run, roles, t, u, turns, turns)
  }

  // A thread can be turned away any number of times while another one takes as many
  // turns, and never get in, if and only if it cannot be inside with every other
  // thread: a writer if there is any other thread, a reader if there is a writer.
  lemma StarvesIffConflict(roles: seq<Role>, t: nat)
    requires t < |roles|
    ensures (forall turns: nat :: CanBeKeptOut(roles, t, turns)) <==> exists u :: Conflict(roles, t, u)
  {
    if u :| Conflict(roles, t, u) {
      forall turns: nat ensures CanBeKeptOut(roles, t, turns) {
        var run := KeepsOutFor(roles, t, u, turns);
        assert KeepsOut(run, roles, t, u, turns, turns);
      }
    }
    if CanBeKeptOut(roles, t, 1) {
      var run, u: nat :| u != t && KeepsOut(run, roles, t, u, 1, 1);
      Runs.CountPositive(TurnsAway(t), run);
      var i :| 0 <= i < |run| - 1 && Runs.StepAt(TurnsAway(t), run, i);
      TurnedAwayByConflict(run, i, t);
    }
  }

  // ----- the monitor itself, its counts and data updated in place

  class Monitor {
    var readersCount: int
    var writersCount: int
    var sharedData: int
    const threads: array<Thread>

    ghost function View(): State
      reads this, threads
    {
      State(readersCount, writersCount, sharedData, threads[..])
    }

    constructor (roles: seq<Role>)
      ensures fresh(threads) && Init(View()) && sharedData == 0
      ensures threads.Length == |roles| && forall t :: 0 <= t < |roles| ==> threads[t].role == roles[t]
    {
      readersCount, writersCount, sharedData := 0, 0, 0;
      threads := new Thread[|roles|](t requires 0 <= t < |roles| => Thread(roles[t], Entering, 0, 0));
    }

    // pthread_cond_broadcast(&cv)
    method Broadcast()
      modifies threads
      ensures threads[..] == WakeAll(old(threads[..]))
    {
      for i := 0 to threads.Length
        invariant forall k :: 0 <= k < i ==> threads[k] == WakeAll(old(threads[..]))[k]
        invariant forall k :: i <= k < threads.Length ==> threads[k] == old(threads[k])
      {
        if threads[i].pc == Waiting {
          threads[i] := threads[i].(pc := Woken);
        }
      }
    }

    // One critical section, or one access to shared_data, of writer t.
    method WriterActs(t: nat)
      requires t < threads.Length && threads[t].role == Writer && threads[t].pc != Waiting
      modifies this, threads
      ensures View() == Act(old(View()), t, t)
    {
      var th := threads[t];
      if th.pc == Using {
        threads[t] := th.(pc := Storing, loaded := sharedData);
      } else if th.pc == Storing {
        sharedData := th.loaded + 10;
        threads[t] := th.(pc := Leaving, writes := th.writes + 1);
      } else if th.pc == Leaving {
        writersCount := writersCount - 1;
        Broadcast();
        threads[t] := th.(pc := Entering);
      } else if readersCount > 0 || writersCount > 0 {
        threads[t] := th.(pc := Waiting);
      } else {
        writersCount := writersCount + 1;
        threads[t] := th.(pc := Using);
      }
    }

    // One critical section, or the read, of reader t; its signal reaches w.
    method ReaderActs(t: nat, w: nat)
      requires t < threads.Length && threads[t].role == Reader && CanAct(View(), t, w) && threads[t].pc != Storing
      modifies this, threads
      ensures View() == Act(old(View()), t, w)
    {
      var th := threads[t];
      if th.pc == Using {
        threads[t] := th.(pc := Leaving);
      } else if th.pc == Leaving {
        readersCount := readersCount - 1;
        if readersCount == 0 && threads[w].pc == Waiting {
          threads[w] := threads[w].(pc := Woken);
        }
        threads[t] := th.(pc := Entering);
      } else if writersCount > 0 {
        threads[t] := th.(pc := Waiting);
      } else {
        readersCount := readersCount + 1;
        threads[t] := th.(pc := Using);
      }
    }
  }
}
