/** What every run of the failure-containment manager keeps. */
module FailureInvariants {
  import opened Wrappers
  import opened FailureModel

  /******* The breaker invariant *******/

  predicate CircuitOk(b: Breaker, c: Circuit) {
    && (c.state == Closed <==> c.openedAt.None?)
    && (c.state == Closed ==> !Crossed(b, c.samples))
    && (c.probe ==> c.state == HalfOpen)
    && |c.samples| <= b.windowSize
  }

  ghost predicate BreakersOk(p: Policy, circuits: map<CircuitKey, Circuit>) {
    forall k :: k in circuits ==>
      k.1 in p.dependencies && CircuitOk(p.dependencies[k.1].breaker, circuits[k])
  }

  lemma AdvanceAllKeepsBreakers(p: Policy, circuits: map<CircuitKey, Circuit>, t: TenantId,
                                ids: set<DependencyId>, now: int)
    requires BreakersOk(p, circuits)
    ensures BreakersOk(p, AdvanceAll(p, circuits, t, ids, now))
  {
    var all := AdvanceAll(p, circuits, t, ids, now);
    forall k | k in all
      ensures k.1 in p.dependencies && CircuitOk(p.dependencies[k.1].breaker, all[k])
    {
      assert k in circuits;
    }
  }

  /** A dependency found available is healthy, and its circuit is closed or probes a half-open one. */
  lemma AvailabilityKeepsBreakers(p: Policy, circuits: map<CircuitKey, Circuit>, t: TenantId,
                                  dep: DependencyId, now: int)
    requires p.Valid() && dep in p.dependencies && BreakersOk(p, circuits)
    ensures var (seen, available) := Availability(p, circuits, t, dep, now);
            && BreakersOk(p, seen)
            && (available ==>
                  && p.dependencies[dep].health == Healthy
                  && var c := CircuitAt(seen, (t, dep)); c.state != Open && !c.probe)
  {
    AdvanceAllKeepsBreakers(p, circuits, t, {dep}, now);
    var own := AdvanceAll(p, circuits, t, {dep}, now);
    var members := DomainMembers(p, p.dependencies[dep].domain);
    AdvanceAllKeepsBreakers(p, own, t, members, now);
  }

  lemma SelectKeepsBreakers(p: Policy, circuits: map<CircuitKey, Circuit>, req: Request, now: int)
    requires p.Valid() && req.dependency in p.dependencies && BreakersOk(p, circuits)
    ensures var (seen, sel) := Select(p, circuits, req, now);
            && BreakersOk(p, seen)
            && (sel.Some? ==>
                  && sel.value.dependency in p.dependencies
                  && p.dependencies[sel.value.dependency].health == Healthy
                  && var c := CircuitAt(seen, (req.tenant, sel.value.dependency));
                     c.state != Open && !c.probe)
  {
    var (seen, available) := Availability(p, circuits, req.tenant, req.dependency, now);
    AvailabilityKeepsBreakers(p, circuits, req.tenant, req.dependency, now);
    if !available && req.fallback.Some? {
      var fid := req.fallback.value.0;
      if fid in p.fallbacks {
        AvailabilityKeepsBreakers(p, seen, req.tenant, p.fallbacks[fid].target, now);
      }
    }
  }

  lemma FreshCircuitOk(b: Breaker)
    requires b.Valid()
    ensures CircuitOk(b, FreshCircuit)
  {
  }

  /** An accepted outcome keeps the circuit invariant and always leaves the half-open state. */
  lemma OutcomeLeavesHalfOpen(b: Breaker, c: Circuit, x: Sample, now: int)
    requires b.Valid() && CircuitOk(b, c)
    ensures CircuitOk(b, AfterOutcome(b, c, x, now))
    ensures AfterOutcome(b, c, x, now).state != HalfOpen
    ensures AfterOutcome(b, c, x, now).state == Closed && c.state != Closed <==>
            c.state == HalfOpen && x.success && !Crossed(b, LastN(c.samples + [x], b.windowSize))
  {
    FreshCircuitOk(b);
  }

  lemma AdmitKeepsBreakers(p: Policy, s: State, req: Request, now: int, id: PermitId)
    requires p.Valid() && BreakersOk(p, s.circuits)
    ensures BreakersOk(p, Authorize(p, s, req, now, id).0.circuits)
  {
    if StaticOk(p, req) {
      SelectKeepsBreakers(p, s.circuits, req, now);
      forall d | d in p.dependencies { FreshCircuitOk(p.dependencies[d].breaker); }
    }
  }

  lemma SettleKeepsBreakers(p: Policy, s: State, permit: Permit, report: Report, verified: bool, now: int)
    requires p.Valid() && BreakersOk(p, s.circuits)
    ensures BreakersOk(p, RecordOutcome(p, s, permit, report, verified, now).0.circuits)
  {
    if Acceptable(p, s, permit, report, verified, now) {
      var b := p.dependencies[permit.body.selected].breaker;
      FreshCircuitOk(b);
      OutcomeLeavesHalfOpen(b, CircuitAt(s.circuits, (permit.body.tenant, permit.body.selected)),
                            report.sample, now);
    }
  }

  lemma StepKeepsBreakers(p: Policy, s: State, step: Step)
    requires p.Valid() && BreakersOk(p, s.circuits)
    ensures BreakersOk(p, Apply(p, s, step).0.circuits)
  {
    match step
    case Admit(req, now, id) => AdmitKeepsBreakers(p, s, req, now, id);
    case Settle(permit, report, verified, now) => SettleKeepsBreakers(p, s, permit, report, verified, now);
  }

  /** Every reachable manager satisfies the breaker invariant. */
  lemma {:induction false} ReachableBreakersOk(p: Policy, run: seq<Step>)
    requires p.Valid()
    ensures BreakersOk(p, Run(p, Initial, run).circuits)
  {
    if run != [] {
      ReachableBreakersOk(p, run[..|run| - 1]);
      StepKeepsBreakers(p, Run(p, Initial, run[..|run| - 1]), run[|run| - 1]);
    }
  }

  /** Every permit ever issued selects a healthy dependency whose circuit is not open. */
  lemma PermitsSelectAvailable(p: Policy, run: seq<Step>, i: nat)
    requires p.Valid() && i < |run| && DecisionAt(p, Initial, run, i).Permitted?
    ensures var body := DecisionAt(p, Initial, run, i).permit;
            && body.selected in p.dependencies
            && p.dependencies[body.selected].health == Healthy
            && CircuitAt(Run(p, Initial, run[..i + 1]).circuits, (body.tenant, body.selected)).state != Open
  {
    ReachableBreakersOk(p, run[..i]);
    var s := Run(p, Initial, run[..i]);
    SelectKeepsBreakers(p, s.circuits, run[i].req, run[i].now);
    assert run[..i + 1][..i] == run[..i];
  }

  /** An open circuit is never selected before its cool-down has passed. */
  lemma OpenCircuitRefuses(p: Policy, s: State, req: Request, now: int, id: PermitId, k: CircuitKey)
    requires p.Valid() && BreakersOk(p, s.circuits)
    requires k in s.circuits && s.circuits[k].state == Open
    requires now < s.circuits[k].openedAt.value + p.dependencies[k.1].breaker.openSeconds
    ensures var d := Authorize(p, s, req, now, id).1; d.Permitted? ==> (d.permit.tenant, d.permit.selected) != k
    ensures CircuitAt(Authorize(p, s, req, now, id).0.circuits, k) == s.circuits[k]
  {
    if StaticOk(p, req) {
      OpenCircuitUntouched(p, s.circuits, req, now, k);
      SelectKeepsBreakers(p, s.circuits, req, now);
    }
  }

  lemma OpenCircuitUntouched(p: Policy, circuits: map<CircuitKey, Circuit>, req: Request, now: int, k: CircuitKey)
    requires p.Valid() && req.dependency in p.dependencies && k.1 in p.dependencies
    requires k in circuits && circuits[k].state == Open && circuits[k].openedAt.Some?
    requires now < circuits[k].openedAt.value + p.dependencies[k.1].breaker.openSeconds
    ensures CircuitAt(Select(p, circuits, req, now).0, k) == circuits[k]
  {
  }

  /** The dependency cannot take a call: unhealthy, open, waiting for its probe, or in a domain at its limit. */
  predicate Down(p: Policy, circuits: map<CircuitKey, Circuit>, t: TenantId, d: DependencyId)
    requires p.Valid() && d in p.dependencies
  {
    var c := CircuitAt(circuits, (t, d));
    var domain := p.dependencies[d].domain;
    || p.dependencies[d].health != Healthy
    || c.state == Open
    || (c.state == HalfOpen && c.probe)
    || (c.state == Closed && |TrippedIn(p, circuits, t, domain)| >= p.maxOpen[domain])
  }

  lemma UnavailableIffDown(p: Policy, circuits: map<CircuitKey, Circuit>, t: TenantId, d: DependencyId, now: int)
    requires p.Valid() && d in p.dependencies
    ensures var (seen, up) := Availability(p, circuits, t, d, now); up <==> !Down(p, seen, t, d)
  {
  }

  /** Circuits that agree on a whole failure domain agree on which of its members are down. */
  lemma DownIsLocal(p: Policy, x: map<CircuitKey, Circuit>, y: map<CircuitKey, Circuit>, t: TenantId, d: DependencyId)
    requires p.Valid() && d in p.dependencies
    requires forall e :: e in DomainMembers(p, p.dependencies[d].domain) ==> CircuitAt(x, (t, e)) == CircuitAt(y, (t, e))
    ensures Down(p, x, t, d) <==> Down(p, y, t, d)
  {
    var domain := p.dependencies[d].domain;
    var members := DomainMembers(p, domain);
    assert d in members;
    forall e ensures e in TrippedIn(p, x, t, domain) <==> e in TrippedIn(p, y, t, domain) {
      if e in members { assert CircuitAt(x, (t, e)) == CircuitAt(y, (t, e)); }
    }
    assert TrippedIn(p, x, t, domain) == TrippedIn(p, y, t, domain);
  }

  /** Looking at a dependency of one domain leaves every other domain alone. */
  lemma LookingIsLocal(p: Policy, circuits: map<CircuitKey, Circuit>, t: TenantId, d: DependencyId, now: int, e: DependencyId)
    requires p.Valid() && d in p.dependencies && e in p.dependencies && p.dependencies[e].domain != p.dependencies[d].domain
    ensures CircuitAt(Availability(p, circuits, t, d, now).0, (t, e)) == CircuitAt(circuits, (t, e))
  {
  }

  /** What an admission selects, in terms of the circuits as it found them. */
  lemma SelectionIffDown(p: Policy, circuits: map<CircuitKey, Circuit>, req: Request, now: int)
    requires p.Valid() && req.dependency in p.dependencies
    ensures var (seen, sel) := Select(p, circuits, req, now);
            sel.Some? ==>
              && (sel.value.fallback.Some? <==> Down(p, seen, req.tenant, req.dependency))
              && (sel.value.fallback.None? ==> sel.value.dependency == req.dependency)
              && (sel.value.fallback.Some? ==> DeclaredFor(p, sel.value.fallback.value, req.dependency, sel.value.dependency))
  {
    var (looked, up) := Availability(p, circuits, req.tenant, req.dependency, now);
    UnavailableIffDown(p, circuits, req.tenant, req.dependency, now);
    if !up && req.fallback.Some? && req.fallback.value.0 in p.fallbacks {
      var fid := req.fallback.value.0;
      var target := p.fallbacks[fid].target;
      if p.fallbacks[fid].primary == req.dependency {
        var seen := Availability(p, looked, req.tenant, target, now).0;
        forall e | e in DomainMembers(p, p.dependencies[req.dependency].domain)
          ensures CircuitAt(seen, (req.tenant, e)) == CircuitAt(looked, (req.tenant, e))
        {
          LookingIsLocal(p, looked, req.tenant, target, now, e);
        }
        DownIsLocal(p, looked, seen, req.tenant, req.dependency);
      }
    }
  }

  /** The policy declares `target` as this fallback of `primary`, in another failure domain. */
  predicate DeclaredFor(p: Policy, fid: FallbackId, primary: DependencyId, target: DependencyId) {
    && fid in p.fallbacks && primary in p.dependencies && target in p.dependencies
    && p.fallbacks[fid].primary == primary && p.fallbacks[fid].target == target
    && fid in p.dependencies[primary].allowedFallbacks
    && p.dependencies[primary].domain != p.dependencies[target].domain
  }

  /**
   Over any run, a permit names a fallback exactly when the admission found the primary unhealthy, open,
   waiting for its probe, or in a domain at its limit; it then selects the target declared for that primary
   in another failure domain, and otherwise the primary itself.
   */
  lemma FallbackOnlyWhenNeeded(p: Policy, run: seq<Step>, i: nat)
    requires p.Valid() && i < |run|
    ensures DecisionAt(p, Initial, run, i).Permitted? ==>
              var body := DecisionAt(p, Initial, run, i).permit;
              && run[i].Admit? && body.primary == run[i].req.dependency && body.primary in p.dependencies
              && var found := Select(p, Run(p, Initial, run[..i]).circuits, run[i].req, run[i].now).0;
                 && (body.fallback.Some? <==> Down(p, found, body.tenant, body.primary))
                 && (body.fallback.None? ==> body.selected == body.primary)
                 && (body.fallback.Some? ==> DeclaredFor(p, body.fallback.value, body.primary, body.selected))
  {
    var s := Run(p, Initial, run[..i]);
    if run[i].Admit? && StaticOk(p, run[i].req) {
      SelectionIffDown(p, s.circuits, run[i].req, run[i].now);
    }
  }

  /******* One probe per half-open episode *******/

  ghost predicate HalfOpenAt(p: Policy, run: seq<Step>, n: nat, k: CircuitKey)
    requires p.Valid() && n <= |run|
  {
    CircuitAt(Run(p, Initial, run[..n]).circuits, k).state == HalfOpen
  }

  lemma RunUnfolds(p: Policy, s: State, run: seq<Step>, i: nat)
    requires p.Valid() && i < |run|
    ensures Run(p, s, run[..i + 1]) == Apply(p, Run(p, s, run[..i]), run[i]).0
  {
    assert run[..i + 1][..i] == run[..i];
  }

  lemma AdvancingKeepsHalfOpen(p: Policy, circuits: map<CircuitKey, Circuit>, t: TenantId,
                               ids: set<DependencyId>, now: int, k: CircuitKey)
    requires CircuitAt(circuits, k).state == HalfOpen
    ensures CircuitAt(AdvanceAll(p, circuits, t, ids, now), k) == CircuitAt(circuits, k)
  {
  }

  lemma AvailabilityKeepsHalfOpen(p: Policy, circuits: map<CircuitKey, Circuit>, t: TenantId,
                                  d: DependencyId, now: int, k: CircuitKey)
    requires p.Valid() && d in p.dependencies && CircuitAt(circuits, k).state == HalfOpen
    ensures CircuitAt(Availability(p, circuits, t, d, now).0, k) == CircuitAt(circuits, k)
  {
    AdvancingKeepsHalfOpen(p, circuits, t, {d}, now, k);
    AdvancingKeepsHalfOpen(p, AdvanceAll(p, circuits, t, {d}, now), t,
                           DomainMembers(p, p.dependencies[d].domain), now, k);
  }

  /** Looking at circuits never disturbs one that is already half-open. */
  lemma LookingKeepsHalfOpen(p: Policy, circuits: map<CircuitKey, Circuit>, req: Request, now: int, k: CircuitKey)
    requires p.Valid() && req.dependency in p.dependencies
    requires CircuitAt(circuits, k).state == HalfOpen
    ensures CircuitAt(Select(p, circuits, req, now).0, k) == CircuitAt(circuits, k)
  {
    var seen := Availability(p, circuits, req.tenant, req.dependency, now).0;
    AvailabilityKeepsHalfOpen(p, circuits, req.tenant, req.dependency, now, k);
    if req.fallback.Some? {
      var fid := req.fallback.value.0;
      if fid in p.fallbacks {
        AvailabilityKeepsHalfOpen(p, seen, req.tenant, p.fallbacks[fid].target, now, k);
      }
    }
  }

  /** While a probe is out no admission touches its circuit, and no permit selects it. */
  lemma AdmitKeepsProbe(p: Policy, s: State, req: Request, now: int, id: PermitId, k: CircuitKey)
    requires p.Valid() && BreakersOk(p, s.circuits)
    requires CircuitAt(s.circuits, k).state == HalfOpen && CircuitAt(s.circuits, k).probe
    ensures CircuitAt(Authorize(p, s, req, now, id).0.circuits, k) == CircuitAt(s.circuits, k)
    ensures var d := Authorize(p, s, req, now, id).1; d.Permitted? ==> (d.permit.tenant, d.permit.selected) != k
  {
    if StaticOk(p, req) {
      LookingKeepsHalfOpen(p, s.circuits, req, now, k);
      SelectKeepsBreakers(p, s.circuits, req, now);
    }
  }

  /** An outcome leaves the probe out or ends the half-open state. */
  lemma SettleKeepsProbe(p: Policy, s: State, permit: Permit, report: Report, verified: bool, now: int, k: CircuitKey)
    requires p.Valid() && BreakersOk(p, s.circuits)
    requires CircuitAt(s.circuits, k).state == HalfOpen && CircuitAt(s.circuits, k).probe
    ensures var c := CircuitAt(RecordOutcome(p, s, permit, report, verified, now).0.circuits, k);
            c.state == HalfOpen ==> c.probe
  {
    if Acceptable(p, s, permit, report, verified, now) {
      FreshCircuitOk(p.dependencies[permit.body.selected].breaker);
      OutcomeLeavesHalfOpen(p.dependencies[permit.body.selected].breaker,
                            CircuitAt(s.circuits, (permit.body.tenant, permit.body.selected)),
                            report.sample, now);
    }
  }

  /** The step was granted a permit on circuit `k`. */
  predicate Selects(p: Policy, s: State, step: Step, k: CircuitKey)
    requires p.Valid()
  {
    var d := Apply(p, s, step).1;
    d.Permitted? && (d.permit.tenant, d.permit.selected) == k
  }

  /** While a circuit stays half-open with its probe out, the probe stays out; no permit ever selects it then. */
  lemma ProbeStaysOut(p: Policy, s: State, step: Step, k: CircuitKey)
    requires p.Valid() && BreakersOk(p, s.circuits)
    requires CircuitAt(s.circuits, k).state == HalfOpen && CircuitAt(s.circuits, k).probe
    ensures var c := CircuitAt(Apply(p, s, step).0.circuits, k); c.state == HalfOpen ==> c.probe
    ensures !Selects(p, s, step, k)
  {
    match step
    case Admit(req, now, id) => AdmitKeepsProbe(p, s, req, now, id, k);
    case Settle(permit, report, verified, now) => SettleKeepsProbe(p, s, permit, report, verified, now, k);
  }

  /** A permit on a circuit that is half-open afterwards is its probe. */
  lemma PermitIsProbe(p: Policy, s: State, step: Step, k: CircuitKey)
    requires p.Valid() && BreakersOk(p, s.circuits)
    requires Selects(p, s, step, k)
    ensures var c := CircuitAt(Apply(p, s, step).0.circuits, k); c.state == HalfOpen ==> c.probe
  {
  }

  /** Step `i` of the run was granted a permit on circuit `k`. */
  ghost predicate SelectsAt(p: Policy, run: seq<Step>, i: nat, k: CircuitKey)
    requires p.Valid() && i < |run|
  {
    Selects(p, Run(p, Initial, run[..i]), run[i], k)
  }

  ghost predicate ProbeOutAt(p: Policy, run: seq<Step>, n: nat, k: CircuitKey)
    requires p.Valid() && n <= |run|
  {
    CircuitAt(Run(p, Initial, run[..n]).circuits, k).probe
  }

  lemma PermitTakesProbe(p: Policy, run: seq<Step>, i: nat, k: CircuitKey)
    requires p.Valid() && i < |run| && HalfOpenAt(p, run, i + 1, k)
    requires SelectsAt(p, run, i, k)
    ensures ProbeOutAt(p, run, i + 1, k)
  {
    RunUnfolds(p, Initial, run, i);
    ReachableBreakersOk(p, run[..i]);
    PermitIsProbe(p, Run(p, Initial, run[..i]), run[i], k);
  }

  lemma ProbeOutOneMore(p: Policy, run: seq<Step>, j: nat, k: CircuitKey)
    requires p.Valid() && j < |run| && HalfOpenAt(p, run, j, k)
    requires ProbeOutAt(p, run, j, k)
    ensures HalfOpenAt(p, run, j + 1, k) ==> ProbeOutAt(p, run, j + 1, k)
    ensures !SelectsAt(p, run, j, k)
  {
    RunUnfolds(p, Initial, run, j);
    ReachableBreakersOk(p, run[..j]);
    ProbeStaysOut(p, Run(p, Initial, run[..j]), run[j], k);
  }

  lemma {:induction false} ProbeOutThroughEpisode(p: Policy, run: seq<Step>, i: nat, j: nat, k: CircuitKey)
    requires p.Valid() && i < j <= |run|
    requires SelectsAt(p, run, i, k)
    requires forall n :: i < n <= j ==> HalfOpenAt(p, run, n, k)
    ensures ProbeOutAt(p, run, j, k)
  {
    assert HalfOpenAt(p, run, j, k);
    if j == i + 1 {
      PermitTakesProbe(p, run, i, k);
    } else {
      ProbeOutThroughEpisode(p, run, i, j - 1, k);
      ProbeOutOneMore(p, run, j - 1, k);
    }
  }

  /** Once a half-open circuit has issued its permit, no second one is issued until it leaves half-open. */
  lemma OnePermitPerEpisode(p: Policy, run: seq<Step>, i: nat, j: nat, k: CircuitKey)
    requires p.Valid() && i < j < |run|
    requires SelectsAt(p, run, i, k)
    requires forall n :: i < n <= j ==> HalfOpenAt(p, run, n, k)
    ensures !SelectsAt(p, run, j, k)
  {
    ProbeOutThroughEpisode(p, run, i, j, k);
    assert HalfOpenAt(p, run, j, k);
    ProbeOutOneMore(p, run, j, k);
  }

  /******* Retry sequencing *******/

  /** Retry counts of the permits issued to one operation, in issue order. */
  ghost function IssuedRetries(p: Policy, run: seq<Step>, op: (TenantId, int)): seq<nat>
    requires p.Valid()
  {
    if run == [] then [] else
      var n := |run| - 1;
      IssuedRetries(p, run[..n], op) +
      (if DecisionAt(p, Initial, run, n).Permitted? && (run[n].req.tenant, run[n].req.operation) == op
       then [run[n].req.retryCount] else [])
  }

  /** Authorised attempts of one operation carry 0, 1, 2, ... and never exceed the retry limit. */
  lemma {:induction false} RetriesAreSequential(p: Policy, run: seq<Step>, op: (TenantId, int))
    requires p.Valid()
    ensures var issued := IssuedRetries(p, run, op);
            && |issued| == AttemptsOf(Run(p, Initial, run).attempts, op)
            && |issued| <= p.maxRetries + 1
            && (forall i :: 0 <= i < |issued| ==> issued[i] == i)
  {
    if run != [] {
      RetriesAreSequential(p, run[..|run| - 1], op);
    }
  }

  /******* Idempotency reservations *******/

  /** The reservation held by an active permit, if it is a side-effecting one. */
  function Reservation(a: ActivePermit): set<EffectKey> {
    if a.sideEffecting && a.digest.key.Some? then {(a.digest.tenant, a.digest.key.value)} else {}
  }

  /** Active reservations are exactly the pairwise-distinct keys of active side-effecting permits. */
  ghost predicate ReservationsExact(s: State) {
    && (forall e :: e in s.activeEffects <==> exists i :: i in s.active && e in Reservation(s.active[i]))
    && (forall i, j :: i in s.active && j in s.active && i != j ==>
          Reservation(s.active[i]) !! Reservation(s.active[j]))
  }

  ghost predicate PermitsNamed(s: State) {
    forall i :: i in s.active ==> s.active[i].digest.id == i
  }

  lemma AdmitKeepsReservations(p: Policy, s: State, req: Request, now: int, id: PermitId)
    requires p.Valid() && ReservationsExact(s) && id !in s.active
    ensures ReservationsExact(Authorize(p, s, req, now, id).0)
  {
    var (s', d) := Authorize(p, s, req, now, id);
    if d.Permitted? {
      var held := Reservation(s'.active[id]);
      assert held !! s.activeEffects;
      assert s'.activeEffects == s.activeEffects + held;
      forall e ensures e in s'.activeEffects <==> exists i :: i in s'.active && e in Reservation(s'.active[i]) {
        if e in s.activeEffects {
          var i :| i in s.active && e in Reservation(s.active[i]);
          assert i in s'.active && e in Reservation(s'.active[i]);
        }
        if e in held { assert id in s'.active && e in Reservation(s'.active[id]); }
      }
      forall i, j | i in s'.active && j in s'.active && i != j
        ensures Reservation(s'.active[i]) !! Reservation(s'.active[j])
      {
      }
    }
  }

  /**
   The guard that decides whether settling a permit keeps the reservations exact: a permit that
   holds no reservation must not carry a key that another active permit has reserved.
   */
  predicate StealsReservation(s: State, permit: PermitBody) {
    && permit.id in s.active
    && permit.key.Some?
    && !s.active[permit.id].sideEffecting
    && (permit.tenant, permit.key.value) in s.activeEffects
  }

  /** Exactly when an accepted outcome keeps the reservations exact. */
  lemma SettleKeepsReservationsIff(p: Policy, s: State, permit: Permit, report: Report, verified: bool, now: int)
    requires p.Valid() && ReservationsExact(s)
    requires Acceptable(p, s, permit, report, verified, now)
    ensures ReservationsExact(RecordOutcome(p, s, permit, report, verified, now).0)
            <==> !StealsReservation(s, permit.body)
  {
    var s' := RecordOutcome(p, s, permit, report, verified, now).0;
    var id := permit.body.id;
    if StealsReservation(s, permit.body) {
      var e := (permit.body.tenant, permit.body.key.value);
      var i :| i in s.active && e in Reservation(s.active[i]);
      assert i in s'.active && e in Reservation(s'.active[i]) && e !in s'.activeEffects;
    } else {
      var held := Reservation(s.active[id]);
      assert s'.activeEffects == s.activeEffects - held;
      forall e ensures e in s'.activeEffects <==> exists i :: i in s'.active && e in Reservation(s'.active[i]) {
        if e in s'.activeEffects {
          var i :| i in s.active && e in Reservation(s.active[i]);
          assert i in s'.active && e in Reservation(s'.active[i]);
        }
        if i :| i in s'.active && e in Reservation(s'.active[i]) {
          assert e in s.activeEffects;
        }
      }
    }
  }

  predicate KeyedOnlyIfSideEffecting(step: Step) {
    step.Admit? ==> (step.req.key.Some? ==> step.req.sideEffecting)
  }

  predicate FreshIds(run: seq<Step>) {
    forall i, j :: 0 <= i < j < |run| && run[i].Admit? && run[j].Admit? ==> run[i].id != run[j].id
  }

  /** Permit ids in use were all handed out by an earlier admission of the run. */
  lemma {:induction false} ActiveIdsComeFromRun(p: Policy, run: seq<Step>, id: PermitId)
    requires p.Valid() && id in Run(p, Initial, run).active
    ensures exists i :: 0 <= i < |run| && run[i].Admit? && run[i].id == id
    ensures PermitsNamed(Run(p, Initial, run))
  {
    if run != [] {
      var n := |run| - 1;
      var s := Run(p, Initial, run[..n]);
      forall j | j in s.active ensures s.active[j].digest.id == j {
        ActiveIdsComeFromRun(p, run[..n], j);
      }
      if id in s.active {
        ActiveIdsComeFromRun(p, run[..n], id);
        var i :| 0 <= i < n && run[..n][i].Admit? && run[..n][i].id == id;
        assert run[i].Admit? && run[i].id == id;
      } else {
        assert run[n].Admit? && run[n].id == id;
      }
    }
  }

  lemma FreshAtEnd(p: Policy, run: seq<Step>)
    requires p.Valid() && run != [] && FreshIds(run) && run[|run| - 1].Admit?
    ensures run[|run| - 1].id !in Run(p, Initial, run[..|run| - 1]).active
  {
    var n := |run| - 1;
    if run[n].id in Run(p, Initial, run[..n]).active {
      ActiveIdsComeFromRun(p, run[..n], run[n].id);
    }
  }

  lemma SettledIdNotReissued(p: Policy, run: seq<Step>, i: nat, m: nat)
    requires p.Valid() && FreshIds(run) && i < m < |run| && run[m].Admit?
    requires run[i].Settle? && DecisionAt(p, Initial, run, i).Recorded?
    ensures run[m].id != run[i].permit.body.id
  {
    ActiveIdsComeFromRun(p, run[..i], run[i].permit.body.id);
    var n :| 0 <= n < i && run[..i][n].Admit? && run[..i][n].id == run[i].permit.body.id;
    assert run[n] == run[..i][n];
  }

  lemma StepKeepsSettled(p: Policy, s: State, step: Step, id: PermitId, report: ReportId)
    requires p.Valid() && id !in s.active && report in s.usedReports && (step.Admit? ==> step.id != id)
    ensures id !in Apply(p, s, step).0.active && report in Apply(p, s, step).0.usedReports
    ensures step.Settle? && Apply(p, s, step).1.Recorded? ==> step.permit.body.id != id && step.report.id != report
  {
  }

  /** Step `i` had its outcome accepted. */
  ghost predicate RecordedAt(p: Policy, run: seq<Step>, i: nat)
    requires p.Valid() && i < |run|
  {
    run[i].Settle? && DecisionAt(p, Initial, run, i).Recorded?
  }

  /** After `j` steps the permit that step `i` settled is inactive, and its report is used up. */
  ghost predicate GoneAt(p: Policy, run: seq<Step>, i: nat, j: nat)
    requires p.Valid() && i < |run| && run[i].Settle? && j <= |run|
  {
    var s := Run(p, Initial, run[..j]);
    run[i].permit.body.id !in s.active && run[i].report.id in s.usedReports
  }

  lemma SettledGoes(p: Policy, run: seq<Step>, i: nat)
    requires p.Valid() && i < |run| && RecordedAt(p, run, i)
    ensures GoneAt(p, run, i, i + 1)
  {
    RunUnfolds(p, Initial, run, i);
  }

  lemma GoneStaysGone(p: Policy, run: seq<Step>, i: nat, j: nat)
    requires p.Valid() && FreshIds(run) && i < j < |run| && RecordedAt(p, run, i) && GoneAt(p, run, i, j)
    ensures GoneAt(p, run, i, j + 1)
    ensures RecordedAt(p, run, j) ==>
              run[j].permit.body.id != run[i].permit.body.id && run[j].report.id != run[i].report.id
  {
    RunUnfolds(p, Initial, run, j);
    if run[j].Admit? { SettledIdNotReissued(p, run, i, j); }
    StepKeepsSettled(p, Run(p, Initial, run[..j]), run[j], run[i].permit.body.id, run[i].report.id);
  }

  lemma {:induction false} SettledStays(p: Policy, run: seq<Step>, i: nat, j: nat)
    requires p.Valid() && FreshIds(run) && i < j <= |run| && RecordedAt(p, run, i)
    ensures GoneAt(p, run, i, j)
  {
    if j == i + 1 {
      SettledGoes(p, run, i);
    } else {
      SettledStays(p, run, i, j - 1);
      GoneStaysGone(p, run, i, j - 1);
    }
  }

  /** A settled permit is gone for good: no permit and no report is ever accepted twice. */
  lemma SettledOnce(p: Policy, run: seq<Step>, i: nat, j: nat)
    requires p.Valid() && FreshIds(run) && i < j < |run|
    requires RecordedAt(p, run, i) && RecordedAt(p, run, j)
    ensures run[j].permit.body.id != run[i].permit.body.id && run[j].report.id != run[i].report.id
  {
    SettledStays(p, run, i, j);
    GoneStaysGone(p, run, i, j);
  }

  /** When only side-effecting requests carry keys, every reachable state keeps the reservations exact. */
  lemma {:induction false} ReachableReservationsExact(p: Policy, run: seq<Step>)
    requires p.Valid() && FreshIds(run)
    requires forall i :: 0 <= i < |run| ==> KeyedOnlyIfSideEffecting(run[i])
    ensures var s := Run(p, Initial, run);
            && ReservationsExact(s)
            && (forall i :: i in s.active ==> s.active[i].digest.key.Some? ==> s.active[i].sideEffecting)
  {
    if run != [] {
      var n := |run| - 1;
      ReachableReservationsExact(p, run[..n]);
      var s := Run(p, Initial, run[..n]);
      match run[n]
      case Admit(req, now, id) =>
        FreshAtEnd(p, run);
        AdmitKeepsReservations(p, s, req, now, id);
      case Settle(permit, report, verified, now) =>
        if Acceptable(p, s, permit, report, verified, now) {
          SettleKeepsReservationsIff(p, s, permit, report, verified, now);
        }
    }
  }

  ghost predicate ExactAt(p: Policy, run: seq<Step>, n: nat)
    requires p.Valid() && n <= |run|
  {
    ReservationsExact(Run(p, Initial, run[..n]))
  }

  /** Step `i` settles a permit that carries, without side effects, a key reserved at that moment. */
  ghost predicate StealsAt(p: Policy, run: seq<Step>, i: nat)
    requires p.Valid() && i < |run|
  {
    RecordedAt(p, run, i) && StealsReservation(Run(p, Initial, run[..i]), run[i].permit.body)
  }

  lemma OneStepExactIff(p: Policy, run: seq<Step>, i: nat)
    requires p.Valid() && FreshIds(run) && i < |run| && ExactAt(p, run, i)
    ensures ExactAt(p, run, i + 1) <==> !StealsAt(p, run, i)
  {
    RunUnfolds(p, Initial, run, i);
    var s := Run(p, Initial, run[..i]);
    match run[i]
    case Admit(req, now, id) =>
      assert run[..i + 1][..i] == run[..i];
      FreshAtEnd(p, run[..i + 1]);
      AdmitKeepsReservations(p, s, req, now, id);
    case Settle(permit, report, verified, now) =>
      if Acceptable(p, s, permit, report, verified, now) {
        SettleKeepsReservationsIff(p, s, permit, report, verified, now);
      }
  }

  lemma {:induction false} ExactUntilStolen(p: Policy, run: seq<Step>, n: nat)
    requires p.Valid() && FreshIds(run) && n <= |run|
    requires forall i :: 0 <= i < n ==> !StealsAt(p, run, i)
    ensures ExactAt(p, run, n)
  {
    if n > 0 {
      ExactUntilStolen(p, run, n - 1);
      OneStepExactIff(p, run, n - 1);
    }
  }

  /** The reservations are exact throughout a run if and only if none of its outcomes steals a reservation. */
  lemma ReservationsExactThroughoutIff(p: Policy, run: seq<Step>)
    requires p.Valid() && FreshIds(run)
    ensures (forall n :: 0 <= n <= |run| ==> ExactAt(p, run, n)) <==>
            (forall i :: 0 <= i < |run| ==> !StealsAt(p, run, i))
  {
    if forall i :: 0 <= i < |run| ==> !StealsAt(p, run, i) {
      forall n | 0 <= n <= |run| ensures ExactAt(p, run, n) { ExactUntilStolen(p, run, n); }
    } else {
      var i :| 0 <= i < |run| && StealsAt(p, run, i);
      if ExactAt(p, run, i) { OneStepExactIff(p, run, i); }
    }
  }

  /** Committed keys are never reserved, whatever the requests carry. */
  lemma {:induction false} CommittedNeverReserved(p: Policy, run: seq<Step>)
    requires p.Valid()
    ensures Run(p, Initial, run).activeEffects !! Run(p, Initial, run).committedEffects
  {
    if run != [] {
      CommittedNeverReserved(p, run[..|run| - 1]);
    }
  }

  /** Once committed, a key never again authorises a side-effecting attempt. */
  lemma {:induction false} CommittedNeverAuthorisesAgain(p: Policy, run: seq<Step>, i: nat, j: nat, e: EffectKey)
    requires p.Valid() && i <= j < |run|
    requires e in Run(p, Initial, run[..i]).committedEffects
    ensures e in Run(p, Initial, run[..j]).committedEffects
    ensures DecisionAt(p, Initial, run, j).Permitted? && run[j].req.sideEffecting ==>
              run[j].req.key.Some? && (run[j].req.tenant, run[j].req.key.value) != e
  {
    if i < j {
      CommittedNeverAuthorisesAgain(p, run, i, j - 1, e);
      RunUnfolds(p, Initial, run, j - 1);
    }
  }

  /** A policy with one healthy dependency, open to every tenant. */
  predicate OneHealthyDependency(p: Policy, dep: DependencyId) {
    && p.Valid()
    && p.dependencies.Keys == {dep}
    && p.dependencies[dep].health == Healthy
    && p.dependencies[dep].allowedTenants == {}
    && 0 < p.maxOpen[p.dependencies[dep].domain]
    && 0.0 <= p.maxCost
  }

  /** The first attempt of operation `n`, carrying key `key`, with or without side effects. */
  function KeyedRequest(t: TenantId, dep: DependencyId, key: int, n: int, sideEffecting: bool): Request {
    Request(t, n, n, dep, 0, 0, 0.0, 0, sideEffecting, Some(key), None, true)
  }

  lemma RunExtends(p: Policy, run: seq<Step>, step: Step)
    requires p.Valid()
    ensures Run(p, Initial, run + [step]) == Apply(p, Run(p, Initial, run), step).0
  {
    assert (run + [step])[..|run|] == run;
  }

  lemma KeyedAdmission(p: Policy, run: seq<Step>, req: Request, now: int, id: PermitId)
    returns (s': State)
    requires OneHealthyDependency(p, req.dependency) && req.key.Some?
    requires req == KeyedRequest(req.tenant, req.dependency, req.key.value, req.operation, req.sideEffecting)
    requires var s := Run(p, Initial, run);
             && (forall k :: k in s.circuits ==> s.circuits[k].state == Closed)
             && (req.tenant, req.attempt) !in s.seenAttempts && (req.tenant, req.operation) !in s.attempts
             && (req.sideEffecting ==> (req.tenant, req.key.value) !in s.activeEffects + s.committedEffects)
    ensures s' == Run(p, Initial, run + [Admit(req, now, id)])
    ensures s' == Issue(p, Run(p, Initial, run), req, Selection(req.dependency, None), now, id)
  {
    RunExtends(p, run, Admit(req, now, id));
    s' := AdmitOnQuietCircuit(p, Run(p, Initial, run), req, now, id);
  }

  /**
   The reservations are not exact in general: the request validator admits a key on a request without
   side effects. In every such policy two admissions reach a state in which settling the second permit
   releases the key that the first, still in flight, has reserved.
   */
  lemma KeyWithoutSideEffectStealsReservation(p: Policy, t: TenantId, dep: DependencyId, key: int, now: int)
    requires OneHealthyDependency(p, dep)
    ensures var write, read := KeyedRequest(t, dep, key, 1, true), KeyedRequest(t, dep, key, 2, false);
            var s := Run(p, Initial, [Admit(write, now, 1), Admit(read, now, 2)]);
            && ReservationsExact(s)
            && 2 in s.active && StealsReservation(s, s.active[2].digest)
  {
    var write, read := KeyedRequest(t, dep, key, 1, true), KeyedRequest(t, dep, key, 2, false);
    var none: seq<Step> := [];
    var s := KeyedAdmission(p, none, write, now, 1);
    AdmitKeepsReservations(p, Initial, write, now, 1);
    RunExtends(p, none, Admit(write, now, 1));
    var one := none + [Admit(write, now, 1)];
    var s' := KeyedAdmission(p, one, read, now, 2);
    AdmitKeepsReservations(p, s, read, now, 2);
    RunExtends(p, one, Admit(read, now, 2));
    assert one + [Admit(read, now, 2)] == [Admit(write, now, 1), Admit(read, now, 2)];
  }

  /** With the one circuit closed, an otherwise acceptable request is admitted directly. */
  lemma AdmitOnQuietCircuit(p: Policy, s: State, req: Request, now: int, id: PermitId) returns (s': State)
    requires p.Valid() && StaticOk(p, req) && MutableOk(p, s, req) && req.fallback.None?
    requires p.dependencies.Keys == {req.dependency} && p.dependencies[req.dependency].health == Healthy
    requires 0 < p.maxOpen[p.dependencies[req.dependency].domain]
    requires forall k :: k in s.circuits ==> s.circuits[k].state == Closed
    ensures s' == Apply(p, s, Admit(req, now, id)).0
    ensures s' == Issue(p, s, req, Selection(req.dependency, None), now, id)
  {
    s' := Apply(p, s, Admit(req, now, id)).0;
    var domain := p.dependencies[req.dependency].domain;
    assert AdvanceAll(p, s.circuits, req.tenant, {req.dependency}, now) == s.circuits;
    assert AdvanceAll(p, s.circuits, req.tenant, DomainMembers(p, domain), now) == s.circuits;
    assert TrippedIn(p, s.circuits, req.tenant, domain) == {};
  }
}
