// Runs of a state machine: what holds in every state of every run, and how
// long a run can be.  The programs modelled here are all given as an initial
// condition and a next-state relation over immutable states.
module Runs {

  // A finite run: it starts in an initial state and takes only steps of "next".
  ghost predicate IsRun<S>(init: S -> bool, next: (S, S) -> bool, run: seq<S>) {
    && 0 < |run|
    && init(run[0])
    && forall i :: 0 <= i < |run| - 1 ==> StepAt(next, run, i)
  }

  ghost predicate StepAt<S>(rel: (S, S) -> bool, run: seq<S>, i: nat)
    requires i < |run| - 1
  {
    rel(run[i], run[i + 1])
  }

  // The number of steps of "run" that are in relation "rel".
  ghost function CountSteps<S>(rel: (S, S) -> bool, run: seq<S>): nat {
    if |run| < 2 then 0
    else CountSteps(rel, run[..|run| - 1]) + (if StepAt(rel, run, |run| - 2) then 1 else 0)
  }

  ghost predicate Inductive<S(!new)>(init: S -> bool, next: (S, S) -> bool, inv: S -> bool) {
    && (forall s :: init(s) ==> inv(s))
    && (forall s, s' {:trigger next(s, s')} :: inv(s) && next(s, s') ==> inv(s'))
  }

  // Every step lowers the measure by at least one, except "idle" steps, which raise it
  // by at most "slack".
  ghost predicate StepsLower<S(!new)>(
      next: (S, S) -> bool, inv: S -> bool, idle: (S, S) -> bool, measure: S -> int, slack: nat)
  {
    forall s, s' {:trigger next(s, s')} :: inv(s) && next(s, s') ==>
      measure(s') <= if idle(s, s') then measure(s) + slack else measure(s) - 1
  }

  ghost predicate NeverRaises<S(!new)>(next: (S, S) -> bool, inv: S -> bool, f: S -> int) {
    forall s, s' {:trigger next(s, s')} :: inv(s) && next(s, s') ==> f(s') <= f(s)
  }

  ghost predicate Keeps<S(!new), T>(next: (S, S) -> bool, inv: S -> bool, f: S -> T) {
    forall s, s' {:trigger next(s, s')} :: inv(s) && next(s, s') ==> f(s') == f(s)
  }

  // No step raises f, and every counted one lowers it.
  ghost predicate CountedLowers<S(!new)>(
      next: (S, S) -> bool, inv: S -> bool, counted: (S, S) -> bool, f: S -> int)
  {
    forall s, s' {:trigger next(s, s')} :: inv(s) && next(s, s') ==> f(s') <= if counted(s, s') then f(s) - 1 else f(s)
  }

  // An inductive invariant holds in every state of every run.
  lemma {:induction false} InvariantHolds<S(!new)>(
      init: S -> bool, next: (S, S) -> bool, inv: S -> bool, run: seq<S>, i: nat)
    requires IsRun(init, next, run) && i < |run|
    requires Inductive(init, next, inv)
    ensures inv(run[i])
  {
    if i == 0 {
    } else {
      InvariantHolds(init, next, inv, run, i - 1);
      assert StepAt(next, run, i - 1);
    }
  }

  // A quantity that no step raises is never above its initial value.
  lemma {:induction false} NeverAbove<S(!new)>(
      init: S -> bool, next: (S, S) -> bool, inv: S -> bool, f: S -> int, run: seq<S>, i: nat, j: nat)
    requires IsRun(init, next, run) && i <= j < |run|
    requires Inductive(init, next, inv)
    requires NeverRaises(next, inv, f)
    ensures f(run[j]) <= f(run[i])
  {
    if i < j {
      NeverAbove(init, next, inv, f, run, i, j - 1);
      InvariantHolds(init, next, inv, run, j - 1);
      assert StepAt(next, run, j - 1);
    }
  }

  // A quantity that no step changes keeps its initial value.
  lemma {:induction false} Conserved<S(!new), T>(
      init: S -> bool, next: (S, S) -> bool, inv: S -> bool, f: S -> T, run: seq<S>, i: nat)
    requires IsRun(init, next, run) && i < |run|
    requires Inductive(init, next, inv)
    requires Keeps(next, inv, f)
    ensures f(run[i]) == f(run[0])
  {
    if i > 0 {
      Conserved(init, next, inv, f, run, i - 1);
      InvariantHolds(init, next, inv, run, i - 1);
      assert StepAt(next, run, i - 1);
    }
  }

  // A non-empty prefix of a run is a run.
  lemma Prefix<S>(init: S -> bool, next: (S, S) -> bool, run: seq<S>)
    requires IsRun(init, next, run) && |run| > 1
    ensures IsRun(init, next, run[..|run| - 1])
  {
    var front := run[..|run| - 1];
    forall i | 0 <= i < |front| - 1 ensures StepAt(next, front, i) {
      assert StepAt(next, run, i);
    }
  }

  // A run extended by one step is a run.
  lemma Extend<S>(init: S -> bool, next: (S, S) -> bool, run: seq<S>, s: S)
    requires IsRun(init, next, run) && next(run[|run| - 1], s)
    ensures IsRun(init, next, run + [s])
  {
    forall i | 0 <= i < |run| ensures StepAt(next, run + [s], i) {
      assert i < |run| - 1 ==> StepAt(next, run, i);
    }
  }

  // If every step lowers the measure by at least one, except "idle" steps, which
  // raise it by at most "slack", then a run is no longer than its initial measure
  // plus what its idle steps pay back.
  lemma {:induction false} StepBound<S(!new)>(
      init: S -> bool, next: (S, S) -> bool, inv: S -> bool, idle: (S, S) -> bool,
      measure: S -> int, slack: nat, run: seq<S>)
    requires IsRun(init, next, run)
    requires Inductive(init, next, inv)
    requires StepsLower(next, inv, idle, measure, slack)
    ensures |run| - 1 + measure(run[|run| - 1]) <= measure(run[0]) + Product(slack + 1, CountSteps(idle, run))
  {
    if |run| == 1 {
    } else {
      var front, n := run[..|run| - 1], |run| - 1;
      Prefix(init, next, run);
      StepBound(init, next, inv, idle, measure, slack, front);
      InvariantHolds(init, next, inv, run, n - 1);
      assert StepAt(next, run, n - 1);
    }
  }

  // a * c
  function Product(a: nat, c: nat): nat {
    if c == 0 then 0 else Product(a, c - 1) + a
  }

  lemma {:induction false} ProductIs(a: nat, c: nat)
    ensures Product(a, c) == a * c
  {
    if c > 0 {
      ProductIs(a, c - 1);
      assert a * c == a * (c - 1) + a;
    }
  }

  // If no step raises f and every step counted lowers it, then as many steps can
  // be counted as f has gone down.
  lemma {:induction false} CountBound<S(!new)>(
      init: S -> bool, next: (S, S) -> bool, inv: S -> bool, counted: (S, S) -> bool, f: S -> int, run: seq<S>)
    requires IsRun(init, next, run)
    requires Inductive(init, next, inv)
    requires CountedLowers(next, inv, counted, f)
    ensures CountSteps(counted, run) + f(run[|run| - 1]) <= f(run[0])
  {
    if |run| > 1 {
      Prefix(init, next, run);
      CountBound(init, next, inv, counted, f, run[..|run| - 1]);
      InvariantHolds(init, next, inv, run, |run| - 2);
      assert StepAt(next, run, |run| - 2);
    }
  }

  // Every step of a run is one of its next-state relation.
  lemma {:induction false} CountAll<S>(init: S -> bool, next: (S, S) -> bool, run: seq<S>)
    requires IsRun(init, next, run)
    ensures CountSteps(next, run) == |run| - 1
  {
    if |run| > 1 {
      Prefix(init, next, run);
      CountAll(init, next, run[..|run| - 1]);
      assert StepAt(next, run, |run| - 2);
    }
  }

  // If every step is of one kind or the other, the two counts cover the run.
  lemma {:induction false} CountEither<S>(
      init: S -> bool, next: (S, S) -> bool, one: (S, S) -> bool, other: (S, S) -> bool, run: seq<S>)
    requires IsRun(init, next, run)
    requires forall i :: 0 <= i < |run| - 1 ==> StepAt(one, run, i) || StepAt(other, run, i)
    ensures |run| - 1 <= CountSteps(one, run) + CountSteps(other, run)
  {
    if |run| > 1 {
      var front := run[..|run| - 1];
      Prefix(init, next, run);
      forall i | 0 <= i < |front| - 1 ensures StepAt(one, front, i) || StepAt(other, front, i) {
        assert StepAt(one, run, i) || StepAt(other, run, i);
      }
      CountEither(init, next, one, other, front);
      assert StepAt(one, run, |run| - 2) || StepAt(other, run, |run| - 2);
    }
  }

  lemma CountExtended<S>(rel: (S, S) -> bool, run: seq<S>, s: S)
    requires run != []
    ensures CountSteps(rel, run + [s]) == CountSteps(rel, run) + if rel(run[|run| - 1], s) then 1 else 0
  {
    var longer := run + [s];
    assert longer[..|longer| - 1] == run;
    assert StepAt(rel, longer, |longer| - 2) <==> rel(run[|run| - 1], s);
  }

  // A part of a run is a run from where the invariant holds.
  lemma Slice<S(!new)>(init: S -> bool, next: (S, S) -> bool, inv: S -> bool, run: seq<S>, i: nat, j: nat)
    requires IsRun(init, next, run) && i <= j < |run|
    requires Inductive(init, next, inv)
    ensures IsRun(inv, next, run[i..j + 1])
  {
    InvariantHolds(init, next, inv, run, i);
    var part := run[i..j + 1];
    forall m | 0 <= m < |part| - 1 ensures StepAt(next, part, m) {
      assert StepAt(next, run, i + m);
    }
  }

  // If every counted step raises f by one and no other changes it, then between two
  // states f goes up by the number of steps counted.
  lemma {:induction false} CountExactly<S>(counted: (S, S) -> bool, f: S -> int, run: seq<S>, i: nat, j: nat)
    requires i <= j < |run|
    requires forall m :: i <= m < j ==> f(run[m + 1]) == f(run[m]) + if StepAt(counted, run, m) then 1 else 0
    ensures f(run[j]) == f(run[i]) + CountSteps(counted, run[i..j + 1])
    decreases j
  {
    if i < j {
      CountExactly(counted, f, run, i, j - 1);
      var part := run[i..j + 1];
      assert part[..|part| - 1] == run[i..j];
      assert StepAt(counted, part, |part| - 2) <==> StepAt(counted, run, j - 1);
    }
  }

  // If no step raises f and every step counted lowers it, the same holds between two
  // states of a run.
  lemma CountBetween<S(!new)>(
      init: S -> bool, next: (S, S) -> bool, inv: S -> bool, counted: (S, S) -> bool, f: S -> int,
      run: seq<S>, i: nat, j: nat)
    requires IsRun(init, next, run) && i <= j < |run|
    requires Inductive(init, next, inv)
    requires CountedLowers(next, inv, counted, f)
    ensures CountSteps(counted, run[i..j + 1]) + f(run[j]) <= f(run[i])
  {
    Slice(init, next, inv, run, i, j);
    CountBound(inv, next, inv, counted, f, run[i..j + 1]);
  }

  lemma {:induction false} CountPositive<S>(rel: (S, S) -> bool, run: seq<S>)
    ensures CountSteps(rel, run) > 0 <==> exists i :: 0 <= i < |run| - 1 && StepAt(rel, run, i)
  {
    if |run| >= 2 {
      var front := run[..|run| - 1];
      CountPositive(rel, front);
      if i :| 0 <= i < |front| - 1 && StepAt(rel, front, i) {
        assert StepAt(rel, run, i);
      }
      if i :| 0 <= i < |run| - 1 && StepAt(rel, run, i) {
        assert i < |front| - 1 ==> StepAt(rel, front, i);
      }
    }
  }
}
