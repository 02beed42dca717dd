/** A tripped circuit over a healthy dependency recovers within one window of good probes. */
module FailureRecovery {
  import opened Wrappers
  import opened FailureModel
  import opened FailureInvariants

  /** A probe that succeeds quickly, free of charge and without abnormal calls. */
  predicate GoodProbe(b: Breaker, x: Sample) {
    x.success && x.latency < b.averageLatency && x.cost == 0.0 && x.abnormal == 0
  }

  lemma {:induction false} GoodTotals(b: Breaker, s: seq<Sample>)
    requires forall i :: 0 <= i < |s| ==> GoodProbe(b, s[i])
    ensures Errors(s) == 0 && TotalCost(s) == 0.0 && TotalAbnormal(s) == 0
    ensures s != [] ==> TotalLatency(s) < |s| as real * b.averageLatency
  {
    if s != [] {
      GoodTotals(b, s[1..]);
      if |s| > 1 {
        assert |s| as real * b.averageLatency == |s[1..]| as real * b.averageLatency + b.averageLatency;
      }
    }
  }

  lemma QuotientBelow(total: real, n: real, bound: real)
    requires 0.0 < n && total < n * bound
    ensures total / n < bound
  {
    assert total == (total / n) * n;
  }

  /** A window made of good probes crosses no threshold. */
  lemma GoodWindowIsQuiet(b: Breaker, s: seq<Sample>)
    requires b.Valid() && forall i :: 0 <= i < |s| ==> GoodProbe(b, s[i])
    ensures !Crossed(b, s)
  {
    GoodTotals(b, s);
    if s != [] {
      QuotientBelow(TotalLatency(s), |s| as real, b.averageLatency);
    }
  }

  lemma BreakerValid(p: Policy, d: DependencyId)
    requires p.Valid() && d in p.dependencies
    ensures p.dependencies[d].breaker.Valid()
  {
  }

  lemma WindowSlides(s: seq<Sample>, x: Sample, w: nat)
    requires 1 <= w
    ensures LastN(LastN(s, w) + [x], w) == LastN(s + [x], w)
  {
  }

  /** The step settles a permit of circuit `k` and is accepted. */
  predicate Settles(p: Policy, s: State, step: Step, k: CircuitKey)
    requires p.Valid()
  {
    && step.Settle?
    && (step.permit.body.tenant, step.permit.body.selected) == k
    && Apply(p, s, step).1.Recorded?
  }

  predicate SettlesAt(p: Policy, s: State, run: seq<Step>, i: nat, k: CircuitKey)
    requires p.Valid() && i < |run|
  {
    Settles(p, Run(p, s, run[..i]), run[i], k)
  }

  /** The samples that circuit `k` accepts along a run, in order. */
  function SamplesFor(p: Policy, s: State, run: seq<Step>, k: CircuitKey): seq<Sample>
    requires p.Valid()
  {
    if run == [] then [] else
      var n := |run| - 1;
      SamplesFor(p, s, run[..n], k) + (if SettlesAt(p, s, run, n, k) then [run[n].report.sample] else [])
  }

  /** Outcomes of circuit `k` arrive only for probes, and every probe is good. */
  ghost predicate OnlyGoodProbes(p: Policy, s: State, run: seq<Step>, k: CircuitKey)
    requires p.Valid() && k.1 in p.dependencies
  {
    forall i :: 0 <= i < |run| && SettlesAt(p, s, run, i, k) ==>
      && CircuitAt(Run(p, s, run[..i]).circuits, k).state == HalfOpen
      && GoodProbe(p.dependencies[k.1].breaker, run[i].report.sample)
  }

  ghost predicate NeverCloses(p: Policy, s: State, run: seq<Step>, k: CircuitKey)
    requires p.Valid()
  {
    forall n :: 0 <= n <= |run| ==> CircuitAt(Run(p, s, run[..n]).circuits, k).state != Closed
  }

  lemma AdvanceAllKeepsSamples(p: Policy, circuits: map<CircuitKey, Circuit>, t: TenantId,
                               ids: set<DependencyId>, now: int, k: CircuitKey)
    ensures CircuitAt(AdvanceAll(p, circuits, t, ids, now), k).samples == CircuitAt(circuits, k).samples
  {
  }

  lemma AvailabilityKeepsSamples(p: Policy, circuits: map<CircuitKey, Circuit>, t: TenantId,
                                 dep: DependencyId, now: int, k: CircuitKey)
    requires p.Valid() && dep in p.dependencies
    ensures CircuitAt(Availability(p, circuits, t, dep, now).0, k).samples == CircuitAt(circuits, k).samples
  {
    AdvanceAllKeepsSamples(p, circuits, t, {dep}, now, k);
    AdvanceAllKeepsSamples(p, AdvanceAll(p, circuits, t, {dep}, now), t,
                           DomainMembers(p, p.dependencies[dep].domain), now, k);
  }

  lemma SelectKeepsSamples(p: Policy, circuits: map<CircuitKey, Circuit>, req: Request, now: int, k: CircuitKey)
    requires p.Valid() && req.dependency in p.dependencies
    ensures CircuitAt(Select(p, circuits, req, now).0, k).samples == CircuitAt(circuits, k).samples
  {
    var (seen, available) := Availability(p, circuits, req.tenant, req.dependency, now);
    AvailabilityKeepsSamples(p, circuits, req.tenant, req.dependency, now, k);
    if !available && req.fallback.Some? {
      var fid := req.fallback.value.0;
      if fid in p.fallbacks {
        AvailabilityKeepsSamples(p, seen, req.tenant, p.fallbacks[fid].target, now, k);
      }
    }
  }

  /** Every other step leaves the window of circuit `k` alone. */
  lemma OtherStepsKeepSamples(p: Policy, s: State, step: Step, k: CircuitKey)
    requires p.Valid() && !Settles(p, s, step, k)
    ensures CircuitAt(Apply(p, s, step).0.circuits, k).samples == CircuitAt(s.circuits, k).samples
  {
    if step.Admit? && StaticOk(p, step.req) {
      SelectKeepsSamples(p, s.circuits, step.req, step.now, k);
    }
  }

  /** A probe that does not close the circuit leaves a window that still crosses. */
  lemma FailedProbeCrosses(p: Policy, s: State, step: Step, k: CircuitKey)
    requires p.Valid() && k.1 in p.dependencies && Settles(p, s, step, k)
    requires CircuitAt(s.circuits, k).state == HalfOpen && GoodProbe(p.dependencies[k.1].breaker, step.report.sample)
    requires CircuitAt(Apply(p, s, step).0.circuits, k).state != Closed
    ensures var b := p.dependencies[k.1].breaker;
            var after := CircuitAt(Apply(p, s, step).0.circuits, k).samples;
            after == LastN(CircuitAt(s.circuits, k).samples + [step.report.sample], b.windowSize) && Crossed(b, after)
  {
  }

  /** The window is the old one followed by good probes, the latest of which left it crossing. */
  ghost predicate SlidWindow(b: Breaker, c: Circuit, w: seq<Sample>, probes: seq<Sample>) {
    && c.samples == LastN(w + probes, b.windowSize)
    && (probes != [] ==> Crossed(b, c.samples))
    && (forall i :: 0 <= i < |probes| ==> GoodProbe(b, probes[i]))
  }

  lemma StepSlidesWindow(p: Policy, s: State, step: Step, k: CircuitKey, w: seq<Sample>, probes: seq<Sample>)
    requires p.Valid() && k.1 in p.dependencies
    requires SlidWindow(p.dependencies[k.1].breaker, CircuitAt(s.circuits, k), w, probes)
    requires Settles(p, s, step, k) ==>
               && CircuitAt(s.circuits, k).state == HalfOpen
               && GoodProbe(p.dependencies[k.1].breaker, step.report.sample)
    requires CircuitAt(Apply(p, s, step).0.circuits, k).state != Closed
    ensures SlidWindow(p.dependencies[k.1].breaker, CircuitAt(Apply(p, s, step).0.circuits, k), w,
                       probes + (if Settles(p, s, step, k) then [step.report.sample] else []))
  {
    var b := p.dependencies[k.1].breaker;
    BreakerValid(p, k.1);
    if Settles(p, s, step, k) {
      FailedProbeCrosses(p, s, step, k);
      WindowSlides(w + probes, step.report.sample, b.windowSize);
      assert w + (probes + [step.report.sample]) == (w + probes) + [step.report.sample];
    } else {
      OtherStepsKeepSamples(p, s, step, k);
      assert probes + [] == probes;
    }
  }

  lemma PrefixFacts(p: Policy, s: State, run: seq<Step>, k: CircuitKey)
    requires p.Valid() && k.1 in p.dependencies && run != []
    requires OnlyGoodProbes(p, s, run, k) && NeverCloses(p, s, run, k)
    ensures var n := |run| - 1;
            && OnlyGoodProbes(p, s, run[..n], k) && NeverCloses(p, s, run[..n], k)
            && CircuitAt(Run(p, s, run).circuits, k).state != Closed
            && (SettlesAt(p, s, run, n, k) ==>
                  && CircuitAt(Run(p, s, run[..n]).circuits, k).state == HalfOpen
                  && GoodProbe(p.dependencies[k.1].breaker, run[n].report.sample))
  {
    var n := |run| - 1;
    assert run[..|run|] == run;
    assert forall i :: 0 <= i <= n ==> run[..n][..i] == run[..i];
    assert forall i :: 0 <= i < n ==> SettlesAt(p, s, run[..n], i, k) == SettlesAt(p, s, run, i, k);
  }

  /**
   While a tripped circuit has not closed, its window is the old window followed by the probes so far,
   and after the latest probe that window still crosses a threshold.
   */
  lemma {:induction false} ProbesSlideTheWindow(p: Policy, s: State, run: seq<Step>, k: CircuitKey)
    requires p.Valid() && BreakersOk(p, s.circuits) && k.1 in p.dependencies
    requires OnlyGoodProbes(p, s, run, k) && NeverCloses(p, s, run, k)
    ensures SlidWindow(p.dependencies[k.1].breaker, CircuitAt(Run(p, s, run).circuits, k),
                       CircuitAt(s.circuits, k).samples, SamplesFor(p, s, run, k))
  {
    var w := CircuitAt(s.circuits, k).samples;
    if run == [] {
      BreakerValid(p, k.1);
      assert w + [] == w;
    } else {
      var n := |run| - 1;
      PrefixFacts(p, s, run, k);
      ProbesSlideTheWindow(p, s, run[..n], k);
      StepSlidesWindow(p, Run(p, s, run[..n]), run[n], k, w, SamplesFor(p, s, run[..n], k));
    }
  }

  lemma FullWindowOfProbes(b: Breaker, w: seq<Sample>, probes: seq<Sample>)
    requires b.Valid() && |probes| >= b.windowSize
    requires forall i :: 0 <= i < |probes| ==> GoodProbe(b, probes[i])
    ensures !Crossed(b, LastN(w + probes, b.windowSize))
  {
    assert LastN(w + probes, b.windowSize) == probes[|probes| - b.windowSize..];
    GoodWindowIsQuiet(b, probes[|probes| - b.windowSize..]);
  }

  /** Bounded recovery: a circuit that has not closed has seen fewer good probes than its window holds. */
  lemma RecoveryIsBounded(p: Policy, s: State, run: seq<Step>, k: CircuitKey)
    requires p.Valid() && BreakersOk(p, s.circuits) && k.1 in p.dependencies
    requires OnlyGoodProbes(p, s, run, k) && NeverCloses(p, s, run, k)
    ensures |SamplesFor(p, s, run, k)| < p.dependencies[k.1].breaker.windowSize
  {
    BreakerValid(p, k.1);
    var b := p.dependencies[k.1].breaker;
    var probes := SamplesFor(p, s, run, k);
    ProbesSlideTheWindow(p, s, run, k);
    if |probes| >= b.windowSize {
      FullWindowOfProbes(b, CircuitAt(s.circuits, k).samples, probes);
    }
  }

  /** The next good probe closes the circuit exactly when the slid window crosses no threshold, else re-opens it. */
  lemma NextProbeDecides(p: Policy, s: State, run: seq<Step>, k: CircuitKey, step: Step)
    requires p.Valid() && BreakersOk(p, s.circuits) && k.1 in p.dependencies
    requires OnlyGoodProbes(p, s, run, k) && NeverCloses(p, s, run, k)
    requires OnlyGoodProbes(p, s, run + [step], k) && SettlesAt(p, s, run + [step], |run|, k)
    ensures var b := p.dependencies[k.1].breaker;
            var window := LastN(CircuitAt(s.circuits, k).samples + SamplesFor(p, s, run, k) + [step.report.sample], b.windowSize);
            var after := CircuitAt(Run(p, s, run + [step]).circuits, k);
            if Crossed(b, window) then after.state == Open && after.openedAt == Some(step.now) && after.samples == window
            else after == FreshCircuit
  {
    var b := p.dependencies[k.1].breaker;
    assert (run + [step])[..|run|] == run && (run + [step])[|run|] == step;
    ProbesSlideTheWindow(p, s, run, k);
    WindowSlides(CircuitAt(s.circuits, k).samples + SamplesFor(p, s, run, k), step.report.sample, b.windowSize);
  }

  /** A probe is always on offer: past the cool-down, a well-formed request on an open circuit is admitted. */
  lemma CoolDownAdmitsProbe(p: Policy, s: State, req: Request, now: int, id: PermitId)
    requires p.Valid() && BreakersOk(p, s.circuits)
    requires StaticOk(p, req) && MutableOk(p, s, req) && req.fallback.None?
    requires p.dependencies[req.dependency].health == Healthy
    requires var c := CircuitAt(s.circuits, (req.tenant, req.dependency));
             c.state == Open && now >= c.openedAt.value + p.dependencies[req.dependency].breaker.openSeconds
    ensures var (s', d) := Authorize(p, s, req, now, id);
            var c := CircuitAt(s'.circuits, (req.tenant, req.dependency));
            && d == Permitted(PermitFor(p, req, Selection(req.dependency, None), now, id))
            && c.state == HalfOpen && c.probe
            && c.samples == CircuitAt(s.circuits, (req.tenant, req.dependency)).samples
  {
    var own := AdvanceAll(p, s.circuits, req.tenant, {req.dependency}, now);
    assert CircuitAt(own, (req.tenant, req.dependency)).state == HalfOpen;
  }

  /** Any authentic, timely report for a permit just issued is accepted. */
  lemma FreshPermitSettles(p: Policy, s: State, req: Request, now: int, id: PermitId, report: Report, later: int)
    requires p.Valid() && BreakersOk(p, s.circuits)
    requires var (s', d) := Authorize(p, s, req, now, id);
             && d.Permitted?
             && report.intact && report.permitId == id && report.permitDigest == d.permit
             && report.id !in s.usedReports && now <= report.completedAt <= later <= now + p.permitTtl
    ensures var (s', d) := Authorize(p, s, req, now, id);
            RecordOutcome(p, s', Permit(d.permit, d.permit), report, true, later).1.Recorded?
  {
    SelectKeepsBreakers(p, s.circuits, req, now);
  }
}
