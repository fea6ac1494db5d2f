// The students of sop1/lab/l3/prog20.c: each goes through three years and
// becomes an engineer, unless it is cancelled in its sleep; a counter for every
// year is kept under its own mutex.  Cancellation is deferred and msleep is the
// only cancellation point, so a cancelled student still runs its cleanup handler.
module Students {
  import Runs
  import opened Sums
  import opened Wrappers

  const YEARS := 4   // three years of study, and the engineers

  datatype Pc =
    | Locking | Loading | Storing | Unlocking   // increment_counter or decrement_counter
    | Asleep
    | Done

  // A student of this year, about to enter it or leaving it; "cancelled" once a
  // cancellation has been acted upon, "loaded" holds values[year] between load and store.
  datatype Student = Student(year: nat, leaving: bool, cancelled: bool, pc: Pc, loaded: int)

  datatype Holder = Nobody | By(student: nat)

  datatype State = State(
    values: seq<int>, holders: seq<Holder>, students: seq<Student>,
    removed: seq<bool>, present: int, kicking: bool)

  const FIRST := Student(0, false, false, Locking, 0)

  ghost predicate Init(s: State) {
    && s.values == [0, 0, 0, 0] && s.holders == [Nobody, Nobody, Nobody, Nobody]
    && (forall i :: 0 <= i < |s.students| ==> s.students[i] == FIRST)
    && |s.removed| == |s.students| && (forall i :: 0 <= i < |s.removed| ==> !s.removed[i])
    && s.present == |s.students| && s.kicking
  }

  predicate Shape(s: State) {
    && |s.values| == YEARS && |s.holders| == YEARS && |s.removed| == |s.students|
    && forall i :: 0 <= i < |s.students| ==> s.students[i].year < YEARS
  }

  // Student i can act; "hit" is whether its sleep ends with a cancellation.
  predicate CanAct(s: State, i: nat, hit: bool)
    requires Shape(s)
  {
    && i < |s.students|
    && (s.students[i].pc == Locking ==> s.holders[s.students[i].year] == Nobody)
    && s.students[i].pc != Done
    && (hit ==> s.students[i].pc == Asleep && s.removed[i])
  }

  // After increment_counter or decrement_counter.
  function AfterUnlock(st: Student): (r: Student)
    ensures st.year < YEARS && (st.leaving ==> st.year < 3) ==> r.year < YEARS
  {
    if !st.leaving then st.(pc := if st.year < 3 then Asleep else Done)
    else if st.cancelled then st.(pc := Done)
    else Student(st.year + 1, false, false, Locking, st.loaded)
  }

  function Act(s: State, i: nat, hit: bool): State
    requires Shape(s) && CanAct(s, i, hit)
  {
    var st := s.students[i];
    match st.pc
    case Locking => s.(holders := s.holders[st.year := By(i)], students := s.students[i := st.(pc := Loading)])
    case Loading => s.(students := s.students[i := st.(pc := Storing, loaded := s.values[st.year])])
    case Storing =>
      s.(values := s.values[st.year := if st.leaving then st.loaded - 1 else st.loaded + 1],
         students := s.students[i := st.(pc := Unlocking)])
    case Unlocking => s.(holders := s.holders[st.year := Nobody], students := s.students[i := AfterUnlock(st)])
    case Asleep => s.(students := s.students[i := st.(pc := Locking, leaving := true, cancelled := hit)])
  }

  // kick_student: main cancels a student it has not cancelled before.
  predicate CanKick(s: State, i: nat) {
    s.kicking && s.present != 0 && i < |s.removed| && !s.removed[i]
  }

  function Kick(s: State, i: nat): State
    requires CanKick(s, i)
  {
    s.(removed := s.removed[i := true], present := s.present - 1)
  }

  ghost predicate StudentStep(s: State, s': State) {
    Shape(s) && exists i: nat, hit: bool :: CanAct(s, i, hit) && s' == Act(s, i, hit)
  }

  ghost predicate KickStep(s: State, s': State) {
    exists i: nat :: CanKick(s, i) && s' == Kick(s, i)
  }

  // The four seconds are over.
  ghost predicate StopStep(s: State, s': State) {
    s.kicking && s' == s.(kicking := false)
  }

  ghost predicate Next(s: State, s': State) {
    StudentStep(s, s') || KickStep(s, s') || StopStep(s, s')
  }

  // ----- the invariant

  // The counter of year y has been raised for this student and not yet lowered.
  predicate In(st: Student, y: nat) {
    st.year == y && if st.leaving then st.pc in {Locking, Loading, Storing} else st.pc in {Unlocking, Asleep, Done}
  }

  function InYear(y: nat): Student -> int {
    (st: Student) => if In(st, y) then 1 else 0
  }

  predicate InSection(st: Student) {
    st.pc in {Loading, Storing, Unlocking}
  }

  predicate StudentOk(s: State, i: nat)
    requires Shape(s) && i < |s.students|
  {
    var st := s.students[i];
    && (st.leaving ==> st.year < 3)
    && (st.cancelled ==> st.leaving && s.removed[i])
    && (st.pc == Asleep ==> !st.leaving && st.year < 3)
    && (st.pc == Done ==> if st.leaving then st.cancelled else st.year == 3)
    && (st.pc == Storing ==> st.loaded == s.values[st.year])
    && (InSection(st) <==> s.holders[st.year] == By(i))
  }

  function IsPresent(removed: bool): int {
    if removed then 0 else 1
  }

  ghost predicate HolderOk(s: State, y: nat)
    requires Shape(s) && y < YEARS
  {
    s.holders[y].By? ==> s.holders[y].student < |s.students| && s.students[s.holders[y].student].year == y
  }

  ghost predicate Inv(s: State) {
    && Shape(s)
    && (forall i :: 0 <= i < |s.students| ==> StudentOk(s, i))
    && (forall y :: 0 <= y < YEARS ==> HolderOk(s, y))
    && (forall y :: 0 <= y < YEARS ==> s.values[y] == SumBy(s.students, InYear(y)))
    && s.present == SumBy(s.removed, IsPresent)
  }

  lemma InitIsInv(s: State)
    requires Init(s)
    ensures Inv(s)
  {
    forall y | 0 <= y < YEARS ensures s.values[y] == SumBy(s.students, InYear(y)) {
      SumByBounds(s.students, InYear(y), 0, 0);
    }
    SumByBounds(s.removed, IsPresent, 1, 1);
  }

  lemma ActKeepsShape(s: State, i: nat, hit: bool)
    requires Inv(s) && CanAct(s, i, hit)
    ensures Shape(Act(s, i, hit))
  {
    assert StudentOk(s, i);
  }

  lemma ActKeepsItself(s: State, i: nat, hit: bool)
    requires Inv(s) && CanAct(s, i, hit) && Shape(Act(s, i, hit))
    ensures StudentOk(Act(s, i, hit), i)
  {
    assert StudentOk(s, i);
    if s.students[i].year < 3 {
      assert HolderOk(s, s.students[i].year + 1);
    }
  }

  lemma ActKeepsOthers(s: State, i: nat, hit: bool, k: nat)
    requires Inv(s) && CanAct(s, i, hit) && k < |s.students| && k != i && Shape(Act(s, i, hit))
    ensures StudentOk(Act(s, i, hit), k)
  {
    assert StudentOk(s, i) && StudentOk(s, k);
  }

  lemma ActKeepsHolders(s: State, i: nat, hit: bool, y: nat)
    requires Inv(s) && CanAct(s, i, hit) && y < YEARS && Shape(Act(s, i, hit))
    ensures HolderOk(Act(s, i, hit), y)
  {
    assert StudentOk(s, i);
    assert HolderOk(s, y);
  }

  lemma ActKeepsCounters(s: State, i: nat, hit: bool, y: nat)
    requires Inv(s) && CanAct(s, i, hit) && y < YEARS && Shape(Act(s, i, hit))
    ensures Act(s, i, hit).values[y] == SumBy(Act(s, i, hit).students, InYear(y))
  {
    assert StudentOk(s, i);
    SumByUpdate(s.students, InYear(y), i, Act(s, i, hit).students[i]);
  }

  lemma ActKeepsInv(s: State, i: nat, hit: bool)
    requires Inv(s) && CanAct(s, i, hit)
    ensures Inv(Act(s, i, hit))
  {
    var s' := Act(s, i, hit);
    ActKeepsShape(s, i, hit);
    forall k | 0 <= k < |s.students| ensures StudentOk(s', k) {
      if k == i {
        ActKeepsItself(s, i, hit);
      } else {
        ActKeepsOthers(s, i, hit, k);
      }
    }
    forall y | 0 <= y < YEARS ensures HolderOk(s', y) && s'.values[y] == SumBy(s'.students, InYear(y)) {
      ActKeepsHolders(s, i, hit, y);
      ActKeepsCounters(s, i, hit, y);
    }
  }

  lemma StopKeepsInv(s: State)
    requires Inv(s)
    ensures Inv(s.(kicking := false))
  {
    forall k | 0 <= k < |s.students| ensures StudentOk(s.(kicking := false), k) {
      assert StudentOk(s, k);
    }
    forall y | 0 <= y < YEARS ensures HolderOk(s.(kicking := false), y) {
      assert HolderOk(s, y);
    }
  }

  lemma KickKeepsInv(s: State, i: nat)
    requires Inv(s) && CanKick(s, i)
    ensures Inv(Kick(s, i))
  {
    SumByUpdate(s.removed, IsPresent, i, true);
    forall k | 0 <= k < |s.students| ensures StudentOk(Kick(s, i), k) {
      assert StudentOk(s, k);
    }
    forall y | 0 <= y < YEARS ensures HolderOk(Kick(s, i), y) {
      assert HolderOk(s, y);
    }
  }

  // The first student drawn that has not been removed yet.
  function Drawn(draws: seq<nat>, removed: seq<bool>): (r: Option<nat>)
    ensures r.Some? ==> r.value < |removed| && !removed[r.value]
    ensures r == None <==> forall d :: 0 <= d < |draws| && |removed| > 0 ==> removed[draws[d] % |removed|]
  {
    if draws == [] || |removed| == 0 then None
    else
      var idx := draws[0] % |removed|;
      if !removed[idx] then Some(idx) else Drawn(draws[1..], removed)
  }

  // A student can still be kicked exactly while "present" is positive, so the loop
  // that draws one can end.
  lemma SomebodyPresent(removed: seq<bool>)
    ensures 0 <= SumBy(removed, IsPresent)
    ensures SumBy(removed, IsPresent) != 0 <==> exists i :: 0 <= i < |removed| && !removed[i]
  {
    SumByBounds(removed, IsPresent, 0, 1);
    if i :| 0 <= i < |removed| && !removed[i] {
      SumByAtLeast(removed, IsPresent, i);
    } else {
      SumByBounds(removed, IsPresent, 0, 0);
    }
  }

  lemma NextKeepsInv(s: State, s': State)
    requires Inv(s) && Next(s, s')
    ensures Inv(s')
  {
    if StudentStep(s, s') {
      var i: nat, hit: bool :| CanAct(s, i, hit) && s' == Act(s, i, hit);
      ActKeepsInv(s, i, hit);
    } else if KickStep(s, s') {
      var i: nat :| CanKick(s, i) && s' == Kick(s, i);
      KickKeepsInv(s, i);
    } else {
      StopKeepsInv(s);
    }
  }

  // ----- results about whole runs

  ghost predicate IsRun(run: seq<State>) {
    Runs.IsRun(Init, Next, run)
  }

  lemma InvIsInductive()
    ensures Runs.Inductive(Init, Next, Inv)
  {
    forall s | Init(s) ensures Inv(s) { InitIsInv(s); }
    forall s, s' | Inv(s) && Next(s, s') ensures Inv(s') { NextKeepsInv(s, s'); }
  }

  // In every state each counter is the number of students in that year: also while
  // a critical section is open, since the counter changes at the store.
  lemma CountersCountStudents(run: seq<State>, k: nat, y: nat)
    requires IsRun(run) && k < |run| && y < YEARS
    ensures Inv(run[k])
    ensures run[k].values[y] == SumBy(run[k].students, InYear(y))
    ensures 0 <= run[k].values[y] <= |run[k].students|
  {
    InvIsInductive();
    Runs.InvariantHolds(Init, Next, Inv, run, k);
    SumByBounds(run[k].students, InYear(y), 0, 1);
  }

  predicate AllDone(s: State) {
    forall i :: 0 <= i < |s.students| ==> s.students[i].pc == Done
  }

  function WasCancelled(st: Student): int {
    if st.cancelled then 1 else 0
  }

  // After all joins the first three counters are 0; the engineers and the students
  // cancelled in their sleep are all the students, and nobody was cancelled whom
  // main did not kick.
  lemma FinalCounts(s: State)
    requires Inv(s) && AllDone(s)
    ensures s.values[0] == 0 && s.values[1] == 0 && s.values[2] == 0
    ensures s.values[3] + SumBy(s.students, WasCancelled) == |s.students|
    ensures s.present <= s.values[3] <= |s.students|
  {
    forall i | 0 <= i < |s.students|
      ensures WasCancelled(s.students[i]) + InYear(3)(s.students[i]) == 1
      ensures IsPresent(s.removed[i]) <= InYear(3)(s.students[i])
      ensures forall y {:trigger InYear(y)} :: 0 <= y < 3 ==> InYear(y)(s.students[i]) == 0
    {
      assert StudentOk(s, i);
    }
    var one := (st: Student) => 1;
    SumByPlus(s.students, InYear(3), WasCancelled, one);
    SumByBounds(s.students, one, 1, 1);
    SumByLe(s.removed, IsPresent, s.students, InYear(3));
    SumByBounds(s.students, InYear(3), 0, 1);
    forall y | 0 <= y < 3 ensures s.values[y] == 0 {
      SumByBounds(s.students, InYear(y), 0, 0);
    }
  }

  // ----- what a cancellation does

  // A sleep ends with a cancellation.
  ghost predicate Hits(s: State, s': State) {
    Shape(s) && exists i: nat :: CanAct(s, i, true) && s' == Act(s, i, true)
  }

  function CancelledCount(s: State): int {
    SumBy(s.students, WasCancelled)
  }

  lemma ActCancels(s: State, i: nat, hit: bool)
    requires Inv(s) && CanAct(s, i, hit)
    ensures CancelledCount(Act(s, i, hit)) == CancelledCount(s) + if hit then 1 else 0
  {
    assert StudentOk(s, i);
    SumByUpdate(s.students, WasCancelled, i, Act(s, i, hit).students[i]);
  }

  lemma StepCancels(s: State, s': State)
    requires Inv(s) && Next(s, s')
    ensures CancelledCount(s') == CancelledCount(s) + if Hits(s, s') then 1 else 0
  {
    if Hits(s, s') {
      var i: nat :| CanAct(s, i, true) && s' == Act(s, i, true);
      ActCancels(s, i, true);
    } else if StudentStep(s, s') {
      var i: nat, hit: bool :| CanAct(s, i, hit) && s' == Act(s, i, hit);
      ActCancels(s, i, hit);
    }
  }

  lemma CancelsInStep(run: seq<State>, m: nat)
    requires IsRun(run) && m < |run| - 1
    ensures CancelledCount(run[m + 1]) == CancelledCount(run[m]) + if Runs.StepAt(Hits, run, m) then 1 else 0
  {
    CountersCountStudents(run, m, 0);
    assert Runs.StepAt(Next, run, m);
    StepCancels(run[m], run[m + 1]);
  }

  // Every cancellation acted upon cancels a student of its own.
  lemma EveryHitCancels(run: seq<State>)
    requires IsRun(run)
    ensures Runs.CountSteps(Hits, run) == SumBy(run[|run| - 1].students, WasCancelled)
  {
    forall m | 0 <= m < |run| - 1
      ensures CancelledCount(run[m + 1]) == CancelledCount(run[m]) + if Runs.StepAt(Hits, run, m) then 1 else 0
    {
      CancelsInStep(run, m);
    }
    Runs.CountExactly(Hits, CancelledCount, run, 0, |run| - 1);
    assert run[0..|run|] == run;
    SumByBounds(run[0].students, WasCancelled, 0, 0);
  }

  // Student k was cancelled in year y.
  predicate CancelledIn(s: State, k: nat, y: nat) {
    k < |s.students| && s.students[k].cancelled && s.students[k].year == y
  }

  lemma ActKeepsCancelled(s: State, i: nat, hit: bool, k: nat, y: nat)
    requires Inv(s) && CanAct(s, i, hit) && CancelledIn(s, k, y)
    ensures CancelledIn(Act(s, i, hit), k, y)
  {
    assert StudentOk(s, k);
  }

  lemma StepKeepsCancelled(s: State, s': State, k: nat, y: nat)
    requires Inv(s) && Next(s, s') && CancelledIn(s, k, y)
    ensures CancelledIn(s', k, y)
  {
    if StudentStep(s, s') {
      var i: nat, hit: bool :| CanAct(s, i, hit) && s' == Act(s, i, hit);
      ActKeepsCancelled(s, i, hit, k, y);
    }
  }

  lemma {:induction false} CancelledStays(run: seq<State>, k: nat, y: nat, i: nat, j: nat)
    requires IsRun(run) && i <= j < |run| && CancelledIn(run[i], k, y)
    ensures CancelledIn(run[j], k, y)
    decreases j
  {
    if i < j {
      CancelledStays(run, k, y, i, j - 1);
      CountersCountStudents(run, j - 1, 0);
      assert Runs.StepAt(Next, run, j - 1);
      StepKeepsCancelled(run[j - 1], run[j], k, y);
    }
  }

  // A student whose sleep in some year ends with a cancellation never gets beyond that
  // year; it ends as cancelled and is counted in no year then.
  lemma HitEndsStudies(run: seq<State>, k: nat, i: nat, j: nat)
    requires IsRun(run) && i < j < |run|
    requires Shape(run[i]) && CanAct(run[i], k, true) && run[i + 1] == Act(run[i], k, true)
    ensures var year := run[i].students[k].year; year < 3 && CancelledIn(run[j], k, year)
    ensures run[j].students[k].pc == Done ==> forall y :: 0 <= y < YEARS ==> !In(run[j].students[k], y)
  {
    CountersCountStudents(run, i, 0);
    assert StudentOk(run[i], k);
    CancelledStays(run, k, run[i].students[k].year, i + 1, j);
    CountersCountStudents(run, j, 0);
    assert StudentOk(run[j], k);
  }

  // Student k's sleep is over, one way or the other.
  ghost function WakesUp(k: nat): (State, State) -> bool {
    (s: State, s': State) =>
      Shape(s) && exists hit: bool :: CanAct(s, k, hit) && s.students[k].pc == Asleep && s' == Act(s, k, hit)
  }

  // The years that student k has slept through.
  function YearsSlept(k: nat): State -> int {
    (s: State) => if k < |s.students| then s.students[k].year + (if s.students[k].leaving then 1 else 0) else 0
  }

  lemma ActSleeps(s: State, i: nat, hit: bool, k: nat)
    requires Inv(s) && CanAct(s, i, hit)
    ensures YearsSlept(k)(Act(s, i, hit)) ==
      YearsSlept(k)(s) + if i == k && s.students[i].pc == Asleep then 1 else 0
  {
    assert StudentOk(s, i);
  }

  lemma StepSleeps(s: State, s': State, k: nat)
    requires Inv(s) && Next(s, s')
    ensures YearsSlept(k)(s') == YearsSlept(k)(s) + if WakesUp(k)(s, s') then 1 else 0
  {
    if WakesUp(k)(s, s') {
      var hit: bool :| CanAct(s, k, hit) && s.students[k].pc == Asleep && s' == Act(s, k, hit);
      ActSleeps(s, k, hit, k);
    } else if StudentStep(s, s') {
      var i: nat, hit: bool :| CanAct(s, i, hit) && s' == Act(s, i, hit);
      ActSleeps(s, i, hit, k);
    }
  }

  lemma SleepsInStep(run: seq<State>, m: nat, k: nat)
    requires IsRun(run) && m < |run| - 1
    ensures YearsSlept(k)(run[m + 1]) == YearsSlept(k)(run[m]) + if Runs.StepAt(WakesUp(k), run, m) then 1 else 0
  {
    CountersCountStudents(run, m, 0);
    assert Runs.StepAt(Next, run, m);
    StepSleeps(run[m], run[m + 1], k);
  }

  // Every student sleeps once in each year it leaves, so an engineer has slept three times.
  lemma EachYearIsSleptOnce(run: seq<State>, k: nat)
    requires IsRun(run) && k < |run[|run| - 1].students|
    ensures var st := run[|run| - 1].students[k];
      Runs.CountSteps(WakesUp(k), run) == st.year + if st.leaving then 1 else 0
  {
    forall m | 0 <= m < |run| - 1
      ensures YearsSlept(k)(run[m + 1]) == YearsSlept(k)(run[m]) + if Runs.StepAt(WakesUp(k), run, m) then 1 else 0
    {
      SleepsInStep(run, m, k);
    }
    Runs.CountExactly(WakesUp(k), YearsSlept(k), run, 0, |run| - 1);
    assert run[0..|run|] == run;
  }

  // ----- every run ends, with all students done

  // The steps a student has still to take, if it is not cancelled.
  function StepsLeft(st: Student): int {
    var offset := match st.pc
      case Locking => 0 case Loading => 1 case Storing => 2 case Unlocking => 3 case Asleep => 4 case Done => 0;
    if st.pc == Done then 0
    else 9 * (3 - st.year) + 4 - offset - (if st.leaving then 5 else 0)
  }

  function Measure(s: State): int {
    SumBy(s.students, StepsLeft) + s.present + (if s.kicking then 1 else 0)
  }

  lemma ActLowersMeasure(s: State, i: nat, hit: bool)
    requires Inv(s) && CanAct(s, i, hit)
    ensures Measure(Act(s, i, hit)) <= Measure(s) - 1
  {
    assert StudentOk(s, i);
    SumByUpdate(s.students, StepsLeft, i, Act(s, i, hit).students[i]);
  }

  lemma NextLowersMeasure(s: State, s': State)
    requires Inv(s) && Next(s, s')
    ensures Measure(s') <= Measure(s) - 1
  {
    if StudentStep(s, s') {
      var i: nat, hit: bool :| CanAct(s, i, hit) && s' == Act(s, i, hit);
      ActLowersMeasure(s, i, hit);
    }
  }

  lemma MeasureNotNegative(s: State)
    requires Inv(s)
    ensures 0 <= Measure(s)
  {
    forall i | 0 <= i < |s.students| ensures 0 <= StepsLeft(s.students[i]) <= 31 {
      assert StudentOk(s, i);
    }
    SumByBounds(s.students, StepsLeft, 0, 31);
    SumByBounds(s.removed, IsPresent, 0, 1);
  }

  lemma StepsLowerMeasure()
    ensures Runs.CountedLowers(Next, Inv, Next, Measure)
  {
    forall s, s' | Inv(s) && Next(s, s')
      ensures Measure(s') <= if Next(s, s') then Measure(s) - 1 else Measure(s)
    {
      NextLowersMeasure(s, s');
    }
  }

  lemma RunsAreBounded(run: seq<State>)
    requires IsRun(run)
    ensures |run| - 1 <= 32 * |run[0].students| + 1
  {
    InvIsInductive();
    StepsLowerMeasure();
    Runs.CountBound(Init, Next, Inv, Next, Measure, run);
    Runs.CountAll(Init, Next, run);
    Runs.InvariantHolds(Init, Next, Inv, run, |run| - 1);
    MeasureNotNegative(run[|run| - 1]);
    SumByBounds(run[0].students, StepsLeft, 31, 31);
  }

  // Nobody can act.
  ghost predicate Stuck(s: State)
    requires Shape(s)
  {
    !s.kicking && forall i: nat :: !CanAct(s, i, false)
  }

  // No mutex is held for ever: a student waits only for one that can act.
  lemma NoDeadlock(s: State)
    requires Inv(s) && Stuck(s)
    ensures AllDone(s)
  {
    forall i | 0 <= i < |s.students| ensures s.students[i].pc == Done {
      assert !CanAct(s, i, false);
      if s.students[i].pc == Locking {
        var y := s.students[i].year;
        assert HolderOk(s, y);
        var k := s.holders[y].student;
        assert StudentOk(s, k);
        assert CanAct(s, k, false);
        assert false;
      }
    }
  }

  // A run that cannot go on has ended: everybody has been joined, and the engineers are
  // all but those whose sleep ended with a cancellation.
  lemma MaximalRunsFinish(run: seq<State>)
    requires IsRun(run)
    ensures var last := run[|run| - 1];
      Shape(last) && (Stuck(last) ==>
        && AllDone(last)
        && last.values == [0, 0, 0, |last.students| - SumBy(last.students, WasCancelled)]
        && last.values[3] == |run[0].students| - Runs.CountSteps(Hits, run))
  {
    var last := run[|run| - 1];
    CountersCountStudents(run, |run| - 1, 0);
    if Stuck(last) {
      NoDeadlock(last);
      FinalCounts(last);
      EveryHitCancels(run);
      StudentsStay(run);
    }
  }

  function StudentCount(s: State): nat {
    |s.students|
  }

  lemma StudentCountIsKept()
    ensures Runs.Keeps(Next, Inv, StudentCount)
  {
    forall s, s' | Inv(s) && Next(s, s') ensures StudentCount(s') == StudentCount(s) {}
  }

  lemma StudentsStay(run: seq<State>)
    requires IsRun(run)
    ensures |run[|run| - 1].students| == |run[0].students|
  {
    InvIsInductive();
    StudentCountIsKept();
    Runs.Conserved(Init, Next, Inv, StudentCount, run, |run| - 1);
  }

  // ----- the program itself, its counters and list updated in place

  class School {
    const values: array<int>
    const holders: array<Holder>     // mxCounters
    const students: array<Student>
    const removed: array<bool>
    var present: int
    var kicking: bool

    ghost predicate Valid()
      reads this
    {
      && students != holders as object && students != removed as object && students != values as object
      && holders != removed as object && holders != values as object && removed != values as object
    }

    ghost function View(): State
      reads this, values, holders, students, removed
    {
      State(values[..], holders[..], students[..], removed[..], present, kicking)
    }

    constructor (n: nat)
      ensures Valid() && fresh(values) && fresh(holders) && fresh(students) && fresh(removed)
      ensures students.Length == n && Init(View())
    {
      values := new int[YEARS](i => 0);
      holders := new Holder[YEARS](i => Nobody);
      students := new Student[n](i => FIRST);
      removed := new bool[n](i => false);
      present, kicking := n, true;
    }

    // Student i goes on: in increment_counter or decrement_counter, or out of its sleep.
    method Perform(i: nat, hit: bool)
      requires Valid() && Shape(View()) && CanAct(View(), i, hit)
      modifies values, holders, students
      ensures View() == Act(old(View()), i, hit)
    {
      var st := students[i];
      match st.pc {
        case Locking =>
          holders[st.year] := By(i);
          students[i] := st.(pc := Loading);
        case Loading =>
          students[i] := st.(pc := Storing, loaded := values[st.year]);
        case Storing =>
          values[st.year] := if st.leaving then st.loaded - 1 else st.loaded + 1;
          students[i] := st.(pc := Unlocking);
        case Unlocking =>
          holders[st.year] := Nobody;
          students[i] := AfterUnlock(st);
        case Asleep =>
          students[i] := st.(pc := Locking, leaving := true, cancelled := hit);
        case Done =>
          assert false;
      }
    }

    // kick_student: draws numbers until one is that of a student not yet removed.
    // "draws" are the values of rand(); None is when there is nobody left, or when
    // these values are used up.
    method KickStudent(draws: seq<nat>) returns (kicked: Option<nat>)
      requires Valid() && Shape(View()) && Inv(View()) && kicking
      modifies this`present, removed
      ensures kicked == if old(present) == 0 then None else Drawn(draws, old(removed[..]))
      ensures kicked == None ==> View() == old(View())
      ensures kicked.Some? ==> CanKick(old(View()), kicked.value) && View() == Kick(old(View()), kicked.value)
      ensures Inv(View())
    {
      kicked := None;
      if present == 0 {
        return;
      }
      SomebodyPresent(removed[..]);
      var tries := 0;
      assert draws[0..] == draws;
      while tries < |draws|
        invariant tries <= |draws|
        invariant Drawn(draws[tries..], removed[..]) == Drawn(draws, removed[..])
      {
        var idx := draws[tries] % removed.Length;
        if !removed[idx] {
          KickKeepsInv(View(), idx);
          removed[idx] := true;
          present := present - 1;
          return Some(idx);
        }
        tries := tries + 1;
      }
    }
  }
}
