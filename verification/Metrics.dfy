/** The counters around reconcile attempts, for any number of attempts at once. */
module Metrics {
  import opened Wrappers

  datatype Action = AwaitChange | Requeue(nanos: nat)

  datatype Label = Success | Failure | RequeueNow | RequeueAfter

  function LabelOf(result: Option<Action>): (l: Label)
    ensures l == Success <==> result == Some(AwaitChange)
    ensures l == Failure <==> result == None
    ensures l == RequeueNow <==> result == Some(Requeue(0))
    ensures l == RequeueAfter <==> exists nanos: nat :: nanos > 0 && result == Some(Requeue(nanos))
  {
    match result
    case None => Failure
    case Some(AwaitChange) => Success
    case Some(Requeue(nanos)) => if nanos == 0 then RequeueNow else RequeueAfter
  }

  type Attempt = nat

  /** An attempt is dropped in two moves: its time is observed, then its worker released. One
      that was cancelled or unwound is dropped without a result. */
  datatype Phase =
    | Running
    | Counted(outcome: Label)
    | Observed(result: Option<Label>)
    | Released(result: Option<Label>)

  datatype Series = Series(activeWorkers: int, totals: map<Label, nat>, observations: nat)

  datatype State = State(series: Series, attempts: map<Attempt, Phase>)

  const LABELS: set<Label> := {Success, Failure, RequeueNow, RequeueAfter}

  const ZERO: State := State(Series(0, map l | l in LABELS :: 0, 0), map[])

  datatype Step =
    | Enter(a: Attempt)
    | Count(a: Attempt, result: Option<Action>)
    | Observe(a: Attempt)
    | Release(a: Attempt)

  predicate Enabled(s: State, step: Step) {
    match step
    case Enter(a) => a !in s.attempts
    case Count(a, _) => a in s.attempts && s.attempts[a].Running?
    case Observe(a) => a in s.attempts && (s.attempts[a].Running? || s.attempts[a].Counted?)
    case Release(a) => a in s.attempts && s.attempts[a].Observed?
  }

  function After(s: State, step: Step): State
    requires Enabled(s, step) && s.series.totals.Keys == LABELS
  {
    var (x, attempts) := (s.series, s.attempts);
    match step
    case Enter(a) => State(x.(activeWorkers := x.activeWorkers + 1), attempts[a := Running])
    case Count(a, result) =>
      var l := LabelOf(result);
      AllLabels(l);
      State(x.(totals := x.totals[l := x.totals[l] + 1]), attempts[a := Counted(l)])
    case Observe(a) =>
      var result := if attempts[a].Counted? then Some(attempts[a].outcome) else None;
      State(x.(observations := x.observations + 1), attempts[a := Observed(result)])
    case Release(a) =>
      State(x.(activeWorkers := x.activeWorkers - 1), attempts[a := Released(attempts[a].result)])
  }

  lemma AllLabels(l: Label)
    ensures l in LABELS
  {
    match l
    case Success =>
    case Failure =>
    case RequeueNow =>
    case RequeueAfter =>
  }

  // Counting attempts by phase

  function Where(attempts: map<Attempt, Phase>, p: Phase -> bool): set<Attempt> {
    set a | a in attempts && p(attempts[a])
  }

  const IN_FLIGHT: Phase -> bool := (p: Phase) => !p.Released?
  const TIMED: Phase -> bool := (p: Phase) => p.Observed? || p.Released?

  function ResultOf(p: Phase): Option<Label> {
    match p
    case Running => None
    case Counted(l) => Some(l)
    case Observed(r) => r
    case Released(r) => r
  }

  function Ended(l: Label): Phase -> bool {
    (p: Phase) => ResultOf(p) == Some(l)
  }

  /** The series are exactly the numbers of attempts they stand for. */
  ghost predicate Balanced(s: State) {
    && s.series.totals.Keys == LABELS
    && s.series.activeWorkers == |Where(s.attempts, IN_FLIGHT)|
    && s.series.observations == |Where(s.attempts, TIMED)|
    && forall l | l in LABELS :: s.series.totals[l] == |Where(s.attempts, Ended(l))|
  }

  lemma Moving(attempts: map<Attempt, Phase>, a: Attempt, to: Phase, p: Phase -> bool)
    ensures |Where(attempts[a := to], p)|
         == |Where(attempts, p)| + (if p(to) then 1 else 0) - (if a in attempts && p(attempts[a]) then 1 else 0)
  {
    var before, others, after := Where(attempts, p), Where(attempts, p) - {a}, Where(attempts[a := to], p);
    forall b ensures b in after <==> b in others || (b == a && p(to)) {}
    if a in attempts && p(attempts[a]) {
      assert before == others + {a};
    } else {
      assert before == others;
    }
    if p(to) {
      assert after == others + {a};
    } else {
      assert after == others;
    }
  }

  lemma StepKeepsBalance(s: State, step: Step)
    requires Balanced(s) && Enabled(s, step)
    ensures Balanced(After(s, step))
  {
    var next := After(s, step);
    var to := next.attempts[step.a];
    Moving(s.attempts, step.a, to, IN_FLIGHT);
    Moving(s.attempts, step.a, to, TIMED);
    forall l | l in LABELS
      ensures next.series.totals[l] == |Where(next.attempts, Ended(l))|
    {
      Moving(s.attempts, step.a, to, Ended(l));
    }
  }

  ghost predicate Run(ss: seq<State>, steps: seq<Step>) {
    && |ss| == |steps| + 1 && ss[0] == ZERO
    && forall i | 0 <= i < |steps| ::
         Enabled(ss[i], steps[i]) && ss[i].series.totals.Keys == LABELS && ss[i + 1] == After(ss[i], steps[i])
  }

  lemma {:induction false} RunIsBalanced(ss: seq<State>, steps: seq<Step>, n: nat)
    requires Run(ss, steps) && n <= |steps|
    ensures Balanced(ss[n])
  {
    if n > 0 {
      RunIsBalanced(ss, steps, n - 1);
      StepKeepsBalance(ss[n - 1], steps[n - 1]);
    } else {
      assert Where(map[], IN_FLIGHT) == {} && Where(map[], TIMED) == {};
      forall l | l in LABELS ensures |Where(map[], Ended(l))| == 0 {
        assert Where(map[], Ended(l)) == {};
      }
    }
  }

  function Sum(totals: map<Label, nat>): nat
    requires totals.Keys == LABELS
  {
    totals[Success] + totals[Failure] + totals[RequeueNow] + totals[RequeueAfter]
  }

  const COMPLETED: Phase -> bool := (p: Phase) => ResultOf(p).Some?
  const ABANDONED: Phase -> bool := (p: Phase) => p == Released(None)

  /** Attempts with one of some labels, and those with one more. */
  lemma OneMoreLabel(attempts: map<Attempt, Phase>, some: set<Label>, l: Label)
    requires l !in some
    ensures |Where(attempts, EndedIn(some + {l}))| == |Where(attempts, EndedIn(some))| + |Where(attempts, Ended(l))|
  {
    var before, one := Where(attempts, EndedIn(some)), Where(attempts, Ended(l));
    assert Where(attempts, EndedIn(some + {l})) == before + one;
    assert before !! one;
  }

  function EndedIn(some: set<Label>): Phase -> bool {
    (p: Phase) => ResultOf(p).Some? && ResultOf(p).value in some
  }

  lemma CompletedByLabel(attempts: map<Attempt, Phase>)
    ensures |Where(attempts, COMPLETED)| == |Where(attempts, Ended(Success))| + |Where(attempts, Ended(Failure))|
                                          + |Where(attempts, Ended(RequeueNow))| + |Where(attempts, Ended(RequeueAfter))|
  {
    assert Where(attempts, EndedIn({})) == {};
    OneMoreLabel(attempts, {}, Success);
    OneMoreLabel(attempts, {} + {Success}, Failure);
    OneMoreLabel(attempts, {} + {Success} + {Failure}, RequeueNow);
    OneMoreLabel(attempts, {} + {Success} + {Failure} + {RequeueNow}, RequeueAfter);
    assert {} + {Success} + {Failure} + {RequeueNow} + {RequeueAfter} == LABELS;
    forall a | a in Where(attempts, COMPLETED) ensures a in Where(attempts, EndedIn(LABELS)) {
      AllLabels(ResultOf(attempts[a]).value);
    }
    assert Where(attempts, COMPLETED) == Where(attempts, EndedIn(LABELS));
  }

  predicate Settled(p: Phase) {
    p.Running? || p.Released?
  }

  lemma TimedWhenSettled(attempts: map<Attempt, Phase>)
    requires forall a | a in attempts :: Settled(attempts[a])
    ensures |Where(attempts, TIMED)| == |Where(attempts, COMPLETED)| + |Where(attempts, ABANDONED)|
  {
    var completed, abandoned := Where(attempts, COMPLETED), Where(attempts, ABANDONED);
    assert Where(attempts, TIMED) == completed + abandoned;
    assert completed !! abandoned;
  }

  /** In every interleaving, the gauge is the number of attempts in flight, the four result
      counters add up to the completed attempts, and where no attempt is between completing and
      being released, the observations are the completed and the abandoned attempts together. */
  lemma MetricsAreConserved(ss: seq<State>, steps: seq<Step>, n: nat)
    requires Run(ss, steps) && n <= |steps|
    ensures var s := ss[n];
            && s.series.activeWorkers == |Where(s.attempts, IN_FLIGHT)|
            && s.series.totals.Keys == LABELS
            && Sum(s.series.totals) == |Where(s.attempts, COMPLETED)|
            && ((forall a | a in s.attempts :: Settled(s.attempts[a])) ==>
                  s.series.observations == Sum(s.series.totals) + |Where(s.attempts, ABANDONED)|)
  {
    RunIsBalanced(ss, steps, n);
    CompletedByLabel(ss[n].attempts);
    if forall a | a in ss[n].attempts :: Settled(ss[n].attempts[a]) {
      TimedWhenSettled(ss[n].attempts);
    }
  }

  /** One measured attempt by itself: `result` is `None` for an error, and `completes` is false
      where the future is cancelled or unwinds. */
  class ControllerMetrics {
    var activeWorkers: int
    var totals: map<Label, nat>
    var observations: nat

    constructor ()
      ensures Read() == ZERO.series
    {
      activeWorkers, totals, observations := 0, map l | l in LABELS :: 0, 0;
    }

    ghost function Read(): Series
      reads this
    {
      Series(activeWorkers, totals, observations)
    }

    method Instrument(result: Option<Action>, completes: bool)
      requires totals.Keys == LABELS
      modifies this
      ensures totals.Keys == LABELS
      ensures activeWorkers == old(activeWorkers) && observations == old(observations) + 1
      ensures totals[Success] == old(totals)[Success] + (if completes && result == Some(AwaitChange) then 1 else 0)
      ensures totals[Failure] == old(totals)[Failure] + (if completes && result == None then 1 else 0)
      ensures totals[RequeueNow] == old(totals)[RequeueNow] + (if completes && result == Some(Requeue(0)) then 1 else 0)
      ensures totals[Label.RequeueAfter] == old(totals)[Label.RequeueAfter] +
              if completes && result.Some? && result.value.Requeue? && result.value.nanos > 0 then 1 else 0
    {
      activeWorkers := activeWorkers + 1;
      if completes {
        var outcome := match result
          case None => Failure
          case Some(action) =>
            if action == AwaitChange then Success
            else if action == Requeue(0) then RequeueNow
            else RequeueAfter;
        AllLabels(outcome);
        totals := totals[outcome := totals[outcome] + 1];
      }
      observations := observations + 1;
      activeWorkers := activeWorkers - 1;
    }
  }
}
