/** When a circuit opens: the trip thresholds in terms of the outcomes themselves, and over whole runs. */
module FailureOutcomes {
  import opened Wrappers
  import opened FailureModel
  import opened FailureInvariants
  import opened FailureRecovery

  /******* Counting outcomes *******/

  /** Where in the window the failed outcomes stand. */
  function FailedAt(w: seq<Sample>): set<nat> {
    set i: nat | i < |w| && !w[i].success
  }

  function LatencySum(w: seq<Sample>): real {
    if w == [] then 0.0 else LatencySum(w[..|w| - 1]) + w[|w| - 1].latency
  }

  function CostSum(w: seq<Sample>): real {
    if w == [] then 0.0 else CostSum(w[..|w| - 1]) + w[|w| - 1].cost
  }

  function AbnormalSum(w: seq<Sample>): nat {
    if w == [] then 0 else AbnormalSum(w[..|w| - 1]) + w[|w| - 1].abnormal
  }

  /** Enough samples of which too many failed or that took too long, too much spent, or too much abnormal. */
  predicate Trips(b: Breaker, w: seq<Sample>) {
    || (|w| >= b.minimumSamples && |FailedAt(w)| as real >= b.errorRate * |w| as real)
    || (|w| >= b.minimumSamples && LatencySum(w) >= b.averageLatency * |w| as real)
    || CostSum(w) >= b.cumulativeCost
    || AbnormalSum(w) >= b.abnormalCalls
  }

  lemma {:induction false} TotalsAppend(w: seq<Sample>, x: Sample)
    ensures Errors(w + [x]) == Errors(w) + (if x.success then 0 else 1)
    ensures TotalLatency(w + [x]) == TotalLatency(w) + x.latency
    ensures TotalCost(w + [x]) == TotalCost(w) + x.cost
    ensures TotalAbnormal(w + [x]) == TotalAbnormal(w) + x.abnormal
  {
    if w == [] {
      assert [x][1..] == [];
    } else {
      TotalsAppend(w[1..], x);
      assert (w + [x])[1..] == w[1..] + [x];
    }
  }

  lemma FailedAppend(w: seq<Sample>, x: Sample)
    ensures |FailedAt(w + [x])| == |FailedAt(w)| + (if x.success then 0 else 1)
  {
    var longer := w + [x];
    forall i: nat | i < |w| ensures longer[i] == w[i] {
    }
    assert FailedAt(longer) == FailedAt(w) + (if x.success then {} else {|w|});
  }

  /** The totals count what they say. */
  lemma {:induction false} TotalsCount(w: seq<Sample>)
    ensures Errors(w) == |FailedAt(w)| && TotalLatency(w) == LatencySum(w)
    ensures TotalCost(w) == CostSum(w) && TotalAbnormal(w) == AbnormalSum(w)
  {
    if w != [] {
      var front, x := w[..|w| - 1], w[|w| - 1];
      assert w == front + [x];
      TotalsCount(front);
      TotalsAppend(front, x);
      FailedAppend(front, x);
    } else {
      assert FailedAt(w) == {};
    }
  }

  lemma QuotientReaches(total: real, n: real, bound: real)
    requires 0.0 < n
    ensures total / n >= bound <==> total >= bound * n
  {
    assert total == (total / n) * n;
    if total / n >= bound {
      assert (total / n - bound) * n >= 0.0;
    } else {
      assert (bound - total / n) * n > 0.0;
    }
  }

  lemma CrossedMeansTrips(b: Breaker, w: seq<Sample>)
    requires b.Valid()
    ensures Crossed(b, w) <==> Trips(b, w)
  {
    TotalsCount(w);
    if w != [] {
      QuotientReaches(|FailedAt(w)| as real, |w| as real, b.errorRate);
      QuotientReaches(LatencySum(w), |w| as real, b.averageLatency);
    }
  }

  /******* One accepted outcome *******/

  /** The circuit that an outcome leaves behind, by the state it was in. */
  ghost predicate OutcomeMoves(b: Breaker, before: Circuit, w: seq<Sample>, success: bool, now: int, after: Circuit) {
    match before.state
    case Closed => after == if Trips(b, w) then Circuit(w, Open, Some(now), false) else Circuit(w, Closed, None, false)
    case HalfOpen =>
      after == if success && !Trips(b, w) then Circuit([], Closed, None, false) else Circuit(w, Open, Some(now), false)
    case Open =>
      after == if Trips(b, w) then Circuit(w, Open, Some(now), false) else Circuit(w, Open, before.openedAt, false)
  }

  lemma AfterOutcomeMoves(b: Breaker, c: Circuit, x: Sample, now: int)
    requires b.Valid() && CircuitOk(b, c)
    ensures OutcomeMoves(b, c, LastN(c.samples + [x], b.windowSize), x.success, now, AfterOutcome(b, c, x, now))
  {
    CrossedMeansTrips(b, LastN(c.samples + [x], b.windowSize));
  }

  lemma WindowIsSuffix(s: seq<Sample>, x: Sample, n: nat)
    requires 1 <= n && |s| <= n
    ensures LastN(s + [x], n) == if |s| < n then s + [x] else s[1..] + [x]
  {
  }

  /** The old window, without its oldest outcome when it was full, and the new outcome. */
  function Slid(b: Breaker, samples: seq<Sample>, x: Sample): seq<Sample> {
    if |samples| < b.windowSize || samples == [] then samples + [x] else samples[1..] + [x]
  }

  /**
   An accepted outcome opens a closed circuit, at the time it is recorded, exactly when the slid window
   trips; it closes a half-open one exactly when it succeeded and the window does not trip, and otherwise
   opens it again; the call is allowed when it succeeded within the cost limit and nothing tripped.
   */
  lemma OutcomeOpensIff(p: Policy, run: seq<Step>, i: nat)
    requires p.Valid() && i < |run| && run[i].Settle? && DecisionAt(p, Initial, run, i).Recorded?
    ensures var body, x := run[i].permit.body, run[i].report.sample;
            var k := (body.tenant, body.selected);
            && k.1 in p.dependencies
            && var b := p.dependencies[k.1].breaker;
               var before := CircuitAt(Run(p, Initial, run[..i]).circuits, k);
               var w := Slid(b, before.samples, x);
               && OutcomeMoves(b, before, w, x.success, run[i].now, CircuitAt(Run(p, Initial, run[..i + 1]).circuits, k))
               && (DecisionAt(p, Initial, run, i).allow <==> x.success && x.cost <= p.maxCost && !Trips(b, w))
  {
    var s := Run(p, Initial, run[..i]);
    var body, x := run[i].permit.body, run[i].report.sample;
    var b := p.dependencies[body.selected].breaker;
    ReachableBreakersOk(p, run[..i]);
    RunUnfolds(p, Initial, run, i);
    BreakerValid(p, body.selected);
    var before := CircuitAt(s.circuits, (body.tenant, body.selected));
    FreshCircuitOk(b);
    WindowIsSuffix(before.samples, x, b.windowSize);
    AfterOutcomeMoves(b, before, x, run[i].now);
    CrossedMeansTrips(b, LastN(before.samples + [x], b.windowSize));
  }

  /******* The window over a run *******/

  /** The step settles a permit of circuit `k` and thereby closes it. */
  predicate Closes(p: Policy, s: State, step: Step, k: CircuitKey)
    requires p.Valid()
  {
    && Settles(p, s, step, k)
    && CircuitAt(s.circuits, k).state == HalfOpen && CircuitAt(Apply(p, s, step).0.circuits, k).state == Closed
  }

  /** The outcomes of circuit `k` accepted since it was last closed by a probe. */
  function Recent(p: Policy, run: seq<Step>, k: CircuitKey): seq<Sample>
    requires p.Valid()
  {
    if run == [] then [] else
      var before, step := run[..|run| - 1], run[|run| - 1];
      var s := Run(p, Initial, before);
      if Closes(p, s, step, k) then []
      else if Settles(p, s, step, k) then Recent(p, before, k) + [step.report.sample]
      else Recent(p, before, k)
  }

  lemma StepKeepsWindow(p: Policy, s: State, step: Step, k: CircuitKey, recent: seq<Sample>)
    requires p.Valid() && k.1 in p.dependencies && BreakersOk(p, s.circuits)
    requires CircuitAt(s.circuits, k).samples == LastN(recent, p.dependencies[k.1].breaker.windowSize)
    ensures var w := p.dependencies[k.1].breaker.windowSize;
            CircuitAt(Apply(p, s, step).0.circuits, k).samples ==
              if Closes(p, s, step, k) then []
              else LastN(recent + (if Settles(p, s, step, k) then [step.report.sample] else []), w)
  {
    var b := p.dependencies[k.1].breaker;
    BreakerValid(p, k.1);
    if Settles(p, s, step, k) {
      FreshCircuitOk(b);
      AfterOutcomeMoves(b, CircuitAt(s.circuits, k), step.report.sample, step.now);
      WindowSlides(recent, step.report.sample, b.windowSize);
    } else {
      OtherStepsKeepSamples(p, s, step, k);
      assert recent + [] == recent;
    }
  }

  /** In every run the window holds the latest outcomes accepted since the circuit was last closed. */
  lemma {:induction false} WindowIsRecent(p: Policy, run: seq<Step>, k: CircuitKey)
    requires p.Valid() && k.1 in p.dependencies
    ensures CircuitAt(Run(p, Initial, run).circuits, k).samples
            == LastN(Recent(p, run, k), p.dependencies[k.1].breaker.windowSize)
  {
    if run != [] {
      var before := run[..|run| - 1];
      WindowIsRecent(p, before, k);
      ReachableBreakersOk(p, before);
      StepKeepsWindow(p, Run(p, Initial, before), run[|run| - 1], k, Recent(p, before, k));
      assert Recent(p, before, k) + [] == Recent(p, before, k);
    }
  }

  /** A closed circuit has not tripped on what it has seen since it was last closed. */
  lemma ClosedHasNotTripped(p: Policy, run: seq<Step>, k: CircuitKey)
    requires p.Valid() && k.1 in p.dependencies && CircuitAt(Run(p, Initial, run).circuits, k).state == Closed
    ensures var b := p.dependencies[k.1].breaker; !Trips(b, LastN(Recent(p, run, k), b.windowSize))
  {
    var b := p.dependencies[k.1].breaker;
    var c := CircuitAt(Run(p, Initial, run).circuits, k);
    ReachableBreakersOk(p, run);
    BreakerValid(p, k.1);
    FreshCircuitOk(b);
    WindowIsRecent(p, run, k);
    CrossedMeansTrips(b, c.samples);
  }

  lemma {:induction false} AllFailed(w: seq<Sample>)
    requires forall i :: 0 <= i < |w| ==> !w[i].success
    ensures |FailedAt(w)| == |w|
  {
    if w != [] {
      var front, x := w[..|w| - 1], w[|w| - 1];
      assert w == front + [x];
      AllFailed(front);
      FailedAppend(front, x);
    }
  }

  lemma AllFailedTrips(b: Breaker, w: seq<Sample>)
    requires b.Valid() && |w| >= b.minimumSamples && forall i :: 0 <= i < |w| ==> !w[i].success
    ensures Trips(b, w)
  {
    AllFailed(w);
    assert b.errorRate * |w| as real <= |w| as real;
  }

  /**
   After as many failures as the breaker needs, and nothing but failures since it was closed, a circuit is not
   closed, and it is open from the moment the last of them is recorded.
   */
  lemma FailuresOpen(p: Policy, run: seq<Step>, k: CircuitKey)
    requires p.Valid() && k.1 in p.dependencies
    requires forall i :: 0 <= i < |Recent(p, run, k)| ==> !Recent(p, run, k)[i].success
    requires |Recent(p, run, k)| >= p.dependencies[k.1].breaker.minimumSamples
    ensures CircuitAt(Run(p, Initial, run).circuits, k).state != Closed
    ensures run != [] && SettlesAt(p, Initial, run, |run| - 1, k) ==> CircuitAt(Run(p, Initial, run).circuits, k).state == Open
  {
    var b := p.dependencies[k.1].breaker;
    BreakerValid(p, k.1);
    if run != [] && SettlesAt(p, Initial, run, |run| - 1, k) {
      OutcomeOpensIff(p, run, |run| - 1);
      assert run[..|run|] == run;
    }
    if CircuitAt(Run(p, Initial, run).circuits, k).state == Closed {
      ClosedHasNotTripped(p, run, k);
      AllFailedTrips(b, LastN(Recent(p, run, k), b.windowSize));
    }
  }
}
