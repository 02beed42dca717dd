/** The failure-containment manager as the mutable object it is, proved against FailureModel. */
module FailureContainment {
  import opened Wrappers
  import opened FailureModel

  lemma AdvanceOneMore(p: Policy, circuits: map<CircuitKey, Circuit>, t: TenantId,
                       ids: set<DependencyId>, d: DependencyId, now: int)
    requires d !in ids
    ensures AdvanceAll(p, AdvanceAll(p, circuits, t, ids, now), t, {d}, now)
            == AdvanceAll(p, circuits, t, ids + {d}, now)
  {
  }

  /** How many of the visited members of a domain are tripped. */
  function TrippedAmong(p: Policy, circuits: map<CircuitKey, Circuit>, t: TenantId, domain: DomainId,
                        visited: set<DependencyId>): nat
  {
    |TrippedIn(p, circuits, t, domain) * visited|
  }

  /** Advancing `d` leaves the other members' circuits alone, so it can only add `d` to the tripped ones. */
  lemma TrippedOneMore(p: Policy, circuits: map<CircuitKey, Circuit>, t: TenantId, domain: DomainId,
                       visited: set<DependencyId>, d: DependencyId, now: int)
    requires d !in visited && d in DomainMembers(p, domain)
    ensures var after := AdvanceAll(p, circuits, t, {d}, now);
            TrippedAmong(p, after, t, domain, visited + {d})
            == TrippedAmong(p, circuits, t, domain, visited)
               + (if CircuitAt(after, (t, d)).state != Closed then 1 else 0)
  {
    var after := AdvanceAll(p, circuits, t, {d}, now);
    forall e | e in visited ensures CircuitAt(after, (t, e)) == CircuitAt(circuits, (t, e)) {
    }
    var counted := TrippedIn(p, circuits, t, domain) * visited;
    assert TrippedIn(p, after, t, domain) * (visited + {d})
        == counted + (if CircuitAt(after, (t, d)).state != Closed then {d} else {});
  }

  /** The domain count after looking at the members `counted`, starting from circuits `start`. */
  ghost predicate Counting(p: Policy, start: map<CircuitKey, Circuit>, t: TenantId, domain: DomainId, now: int,
                           counted: set<DependencyId>, circuits: map<CircuitKey, Circuit>, count: nat)
  {
    && circuits == AdvanceAll(p, start, t, counted, now)
    && count == TrippedAmong(p, circuits, t, domain, counted)
  }

  /** The members of the domain are those counted and those still among the candidates. */
  ghost predicate Uncounted(p: Policy, domain: DomainId, candidates: set<DependencyId>, counted: set<DependencyId>) {
    && candidates <= p.dependencies.Keys
    && counted == DomainMembers(p, domain) - candidates
  }

  lemma CountNone(p: Policy, circuits: map<CircuitKey, Circuit>, t: TenantId, domain: DomainId, now: int)
    ensures Uncounted(p, domain, p.dependencies.Keys, {})
    ensures Counting(p, circuits, t, domain, now, {}, circuits, 0)
  {
    assert AdvanceAll(p, circuits, t, {}, now) == circuits;
  }

  lemma CountStep(p: Policy, start: map<CircuitKey, Circuit>, t: TenantId, domain: DomainId, now: int,
                  candidates: set<DependencyId>, counted: set<DependencyId>,
                  circuits: map<CircuitKey, Circuit>, count: nat, d: DependencyId)
    requires Uncounted(p, domain, candidates, counted) && d in candidates
    requires Counting(p, start, t, domain, now, counted, circuits, count)
    ensures var after := AdvanceAll(p, circuits, t, {d}, now);
            if p.dependencies[d].domain == domain then
              && Uncounted(p, domain, candidates - {d}, counted + {d})
              && Counting(p, start, t, domain, now, counted + {d}, after,
                          if CircuitAt(after, (t, d)).state == Closed then count else count + 1)
            else
              Uncounted(p, domain, candidates - {d}, counted)
  {
    if p.dependencies[d].domain == domain {
      AdvanceOneMore(p, start, t, counted, d, now);
      TrippedOneMore(p, circuits, t, domain, counted, d, now);
    }
  }

  lemma AllVisited(p: Policy, circuits: map<CircuitKey, Circuit>, t: TenantId, domain: DomainId)
    ensures TrippedAmong(p, circuits, t, domain, DomainMembers(p, domain)) == |TrippedIn(p, circuits, t, domain)|
  {
    assert TrippedIn(p, circuits, t, domain) * DomainMembers(p, domain) == TrippedIn(p, circuits, t, domain);
  }

  /** Count, in any order, the domain members whose circuit is not closed, advancing each as it is looked at. */
  method CountTripped(p: Policy, circuits: map<CircuitKey, Circuit>, t: TenantId, domain: DomainId, now: int)
    returns (seen: map<CircuitKey, Circuit>, count: nat)
    ensures seen == AdvanceAll(p, circuits, t, DomainMembers(p, domain), now)
    ensures count == |TrippedIn(p, seen, t, domain)|
  {
    var candidates := p.dependencies.Keys;
    seen, count := circuits, 0;
    ghost var counted: set<DependencyId> := {};
    CountNone(p, circuits, t, domain, now);
    while candidates != {}
      invariant Uncounted(p, domain, candidates, counted)
      invariant Counting(p, circuits, t, domain, now, counted, seen, count)
      decreases candidates
    {
      var candidate := NextOf(candidates);
      CountStep(p, circuits, t, domain, now, candidates, counted, seen, count, candidate);
      if p.dependencies[candidate].domain == domain {
        seen := AdvanceAll(p, seen, t, {candidate}, now);
        if CircuitAt(seen, (t, candidate)).state != Closed {
          count := count + 1;
        }
        counted := counted + {candidate};
      }
      candidates := candidates - {candidate};
    }
    AllVisited(p, seen, t, domain);
  }

  class FailureContainmentManager {
    const policy: Policy
    var circuits: map<CircuitKey, Circuit>
    var activePermits: map<PermitId, ActivePermit>
    var usedReportIds: set<ReportId>
    var seenAttemptIds: set<(TenantId, int)>
    var operationAttempts: map<(TenantId, int), nat>
    var activeSideEffects: set<EffectKey>
    var committedSideEffects: set<EffectKey>

    function View(): State
      reads this
    {
      State(circuits, activePermits, usedReportIds, seenAttemptIds, operationAttempts,
            activeSideEffects, committedSideEffects)
    }

    constructor (policy: Policy)
      requires policy.Valid()
      ensures this.policy == policy && View() == Initial
    {
      this.policy := policy;
      circuits, activePermits, usedReportIds := map[], map[], {};
      seenAttemptIds, operationAttempts := {}, map[];
      activeSideEffects, committedSideEffects := {}, {};
    }

    method AdvanceHalfOpen(tenant: TenantId, dependency: DependencyId, now: int)
      requires dependency in policy.dependencies
      modifies this`circuits
      ensures circuits == AdvanceAll(policy, old(circuits), tenant, {dependency}, now)
    {
      var k := (tenant, dependency);
      var c := CircuitAt(circuits, k);
      if c.state == Open && c.openedAt.Some?
         && now >= c.openedAt.value + policy.dependencies[dependency].breaker.openSeconds {
        circuits := circuits[k := c.(state := HalfOpen, probe := false)];
      }
      assert circuits == AdvanceAll(policy, old(circuits), tenant, {dependency}, now);
    }

    method DependencyUnavailable(tenant: TenantId, dependency: DependencyId, now: int) returns (unavailable: bool)
      requires policy.Valid() && dependency in policy.dependencies
      modifies this`circuits
      ensures (circuits, !unavailable) == Availability(policy, old(circuits), tenant, dependency, now)
    {
      var d := policy.dependencies[dependency];
      if d.health != Healthy {
        return true;
      }
      AdvanceHalfOpen(tenant, dependency, now);
      var c := CircuitAt(circuits, (tenant, dependency));
      if c.state == Open {
        return true;
      }
      if c.state == HalfOpen {
        return c.probe;
      }
      var seen, open := CountTripped(policy, circuits, tenant, d.domain, now);
      circuits := seen;
      return open >= policy.maxOpen[d.domain];
    }

    method SelectFallback(req: Request, now: int) returns (fallback: Option<Selection>)
      requires policy.Valid() && req.dependency in policy.dependencies
      modifies this`circuits
      ensures if req.fallback.None? || req.fallback.value.0 !in policy.fallbacks then
                fallback == None && circuits == old(circuits)
              else
                var (fid, artifact) := req.fallback.value;
                var target := policy.fallbacks[fid].target;
                var (seen, ready) := Availability(policy, old(circuits), req.tenant, target, now);
                && circuits == seen
                && fallback == if ready && FallbackOk(policy, req, fid, artifact)
                               then Some(Selection(target, Some(fid))) else None
    {
      if req.fallback.None? {
        return None;
      }
      var (fid, artifact) := req.fallback.value;
      if fid !in policy.fallbacks {
        return None;
      }
      var target := policy.fallbacks[fid].target;
      var unavailable := DependencyUnavailable(req.tenant, target, now);
      if unavailable || !FallbackOk(policy, req, fid, artifact) {
        return None;
      }
      return Some(Selection(target, Some(fid)));
    }

    method IssuePermit(req: Request, sel: Selection, now: int, id: PermitId) returns (permit: PermitBody)
      modifies this
      ensures permit == PermitFor(policy, req, sel, now, id)
      ensures View() == Issue(policy, old(View()), req, sel, now, id)
    {
      var k := (req.tenant, sel.dependency);
      var c := CircuitAt(circuits, k);
      if c.state == HalfOpen {
        circuits := circuits[k := c.(probe := true)];
      }
      permit := PermitBody(id, req.tenant, req.operation, req.attempt, req.dependency, sel.dependency,
                           sel.fallback, req.key, now, now + policy.permitTtl);
      activePermits := activePermits[id := ActivePermit(permit, req.sideEffecting, req.retryCount)];
      seenAttemptIds := seenAttemptIds + {(req.tenant, req.attempt)};
      var op := (req.tenant, req.operation);
      operationAttempts := operationAttempts[op := AttemptsOf(operationAttempts, op) + 1];
      if req.sideEffecting && req.key.Some? {
        activeSideEffects := activeSideEffects + {(req.tenant, req.key.value)};
      }
    }

    method Authorize(req: Request, now: int, id: PermitId) returns (decision: Decision)
      requires policy.Valid()
      modifies this
      ensures (View(), decision) == FailureModel.Authorize(policy, old(View()), req, now, id)
    {
      if !StaticOk(policy, req) {
        return Blocked;
      }
      var mutableOk := MutableOk(policy, View(), req);
      var selected: Option<Selection>;
      var unavailable := DependencyUnavailable(req.tenant, req.dependency, now);
      if unavailable {
        selected := SelectFallback(req, now);
      } else {
        selected := if req.fallback.None? then Some(Selection(req.dependency, None)) else None;
      }
      if selected.None? || !mutableOk {
        return Blocked;
      }
      var permit := IssuePermit(req, selected.value, now, id);
      return Permitted(permit);
    }

    method FinishSideEffect(permit: PermitBody, report: Report)
      modifies this`activeSideEffects, this`committedSideEffects
      ensures var held := if permit.key.Some? then {(permit.tenant, permit.key.value)} else {};
              && activeSideEffects == old(activeSideEffects) - held
              && committedSideEffects ==
                 if report.committed then old(committedSideEffects) + held else old(committedSideEffects)
    {
      if permit.key.None? {
        return;
      }
      activeSideEffects := activeSideEffects - {(permit.tenant, permit.key.value)};
      if report.committed {
        committedSideEffects := committedSideEffects + {(permit.tenant, permit.key.value)};
      }
    }

    method RecordOutcome(permit: Permit, report: Report, verified: bool, now: int) returns (decision: Decision)
      requires policy.Valid()
      modifies this
      ensures (View(), decision) == FailureModel.RecordOutcome(policy, old(View()), permit, report, verified, now)
    {
      if !Acceptable(policy, View(), permit, report, verified, now) {
        return Rejected;
      }
      var body := permit.body;
      activePermits := activePermits - {body.id};
      usedReportIds := usedReportIds + {report.id};
      FinishSideEffect(body, report);
      var k := (body.tenant, body.selected);
      var b := policy.dependencies[body.selected].breaker;
      var c := CircuitAt(circuits, k);
      c := c.(probe := false, samples := LastN(c.samples + [report.sample], b.windowSize));
      var crossed := Crossed(b, c.samples);
      decision := Recorded(report.sample.success && report.sample.cost <= policy.maxCost && !crossed);
      if c.state == HalfOpen && report.sample.success && !crossed {
        c := Circuit([], Closed, None, false);
      } else if crossed || (c.state == HalfOpen && !report.sample.success) {
        c := c.(state := Open, openedAt := Some(now));
      }
      circuits := circuits[k := c];
    }
  }
}
