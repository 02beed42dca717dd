/** Tenants of one failure-containment manager do not influence each other's decisions. */
module FailureIsolation {
  import opened Wrappers
  import opened FailureModel
  import Invariants = FailureInvariants

  /******* The part of the state one tenant's decisions depend on *******/

  function TenantCircuits(circuits: map<CircuitKey, Circuit>, t: TenantId): map<CircuitKey, Circuit> {
    map k | k in circuits && k.0 == t :: circuits[k]
  }

  function TenantPermits(active: map<PermitId, ActivePermit>, t: TenantId): map<PermitId, ActivePermit> {
    map i | i in active && active[i].digest.tenant == t :: active[i]
  }

  function TenantAttempts(attempts: map<(TenantId, int), nat>, t: TenantId): map<(TenantId, int), nat> {
    map k | k in attempts && k.0 == t :: attempts[k]
  }

  function TenantPairs(s: set<(TenantId, int)>, t: TenantId): set<(TenantId, int)> {
    set e | e in s && e.0 == t
  }

  /** The slice of tenant `t`; of the report ids, which carry no tenant, only those in `reports`. */
  function Slice(s: State, t: TenantId, reports: set<ReportId>): State {
    State(
      TenantCircuits(s.circuits, t),
      TenantPermits(s.active, t),
      s.usedReports * reports,
      TenantPairs(s.seenAttempts, t),
      TenantAttempts(s.attempts, t),
      TenantPairs(s.activeEffects, t),
      TenantPairs(s.committedEffects, t))
  }

  /******* Steps act on the slice alone *******/

  lemma AdvanceAllLocal(p: Policy, circuits: map<CircuitKey, Circuit>, t: TenantId,
                        ids: set<DependencyId>, now: int)
    ensures TenantCircuits(AdvanceAll(p, circuits, t, ids, now), t)
            == AdvanceAll(p, TenantCircuits(circuits, t), t, ids, now)
    ensures forall u :: u != t ==>
              TenantCircuits(AdvanceAll(p, circuits, t, ids, now), u) == TenantCircuits(circuits, u)
  {
  }

  lemma TrippedLocal(p: Policy, circuits: map<CircuitKey, Circuit>, t: TenantId, domain: DomainId)
    ensures TrippedIn(p, TenantCircuits(circuits, t), t, domain) == TrippedIn(p, circuits, t, domain)
  {
    forall d ensures CircuitAt(TenantCircuits(circuits, t), (t, d)) == CircuitAt(circuits, (t, d)) {
      assert (t, d) in circuits <==> (t, d) in TenantCircuits(circuits, t);
    }
  }

  lemma AvailabilityLocal(p: Policy, circuits: map<CircuitKey, Circuit>, t: TenantId, dep: DependencyId, now: int)
    requires p.Valid() && dep in p.dependencies
    ensures var (seen, ok) := Availability(p, circuits, t, dep, now);
            && Availability(p, TenantCircuits(circuits, t), t, dep, now) == (TenantCircuits(seen, t), ok)
            && forall u :: u != t ==> TenantCircuits(seen, u) == TenantCircuits(circuits, u)
  {
    var d := p.dependencies[dep];
    AdvanceAllLocal(p, circuits, t, {dep}, now);
    var own := AdvanceAll(p, circuits, t, {dep}, now);
    var members := DomainMembers(p, d.domain);
    AdvanceAllLocal(p, own, t, members, now);
    var all := AdvanceAll(p, own, t, members, now);
    TrippedLocal(p, all, t, d.domain);
  }

  lemma SelectLocal(p: Policy, circuits: map<CircuitKey, Circuit>, req: Request, now: int)
    requires p.Valid() && req.dependency in p.dependencies
    ensures var (seen, sel) := Select(p, circuits, req, now);
            && Select(p, TenantCircuits(circuits, req.tenant), req, now) == (TenantCircuits(seen, req.tenant), sel)
            && forall u :: u != req.tenant ==> TenantCircuits(seen, u) == TenantCircuits(circuits, u)
  {
    AvailabilityLocal(p, circuits, req.tenant, req.dependency, now);
    var (seen, available) := Availability(p, circuits, req.tenant, req.dependency, now);
    if !available && req.fallback.Some? {
      var fid := req.fallback.value.0;
      if fid in p.fallbacks {
        AvailabilityLocal(p, seen, req.tenant, p.fallbacks[fid].target, now);
      }
    }
  }

  lemma IssueLocal(p: Policy, s: State, req: Request, sel: Selection, now: int, id: PermitId, reports: set<ReportId>)
    ensures Slice(Issue(p, s, req, sel, now, id), req.tenant, reports)
            == Issue(p, Slice(s, req.tenant, reports), req, sel, now, id)
  {
    var t := req.tenant;
    var whole, part := Issue(p, s, req, sel, now, id), Issue(p, Slice(s, t, reports), req, sel, now, id);
    assert TenantCircuits(whole.circuits, t) == part.circuits;
    assert TenantPermits(whole.active, t) == part.active;
    assert TenantPairs(whole.seenAttempts, t) == part.seenAttempts;
    assert TenantAttempts(whole.attempts, t) == part.attempts;
    assert TenantPairs(whole.activeEffects, t) == part.activeEffects;
  }

  /** An admission decides from its tenant's slice, and changes that slice as if it were the whole state. */
  lemma AdmitLocal(p: Policy, s: State, req: Request, now: int, id: PermitId, reports: set<ReportId>)
    requires p.Valid()
    ensures var (s', d) := Authorize(p, s, req, now, id);
            Authorize(p, Slice(s, req.tenant, reports), req, now, id) == (Slice(s', req.tenant, reports), d)
  {
    if StaticOk(p, req) {
      SelectLocal(p, s.circuits, req, now);
      var (seen, sel) := Select(p, s.circuits, req, now);
      var part := Slice(s, req.tenant, reports);
      assert MutableOk(p, s, req) == MutableOk(p, part, req);
      var looked := s.(circuits := seen);
      assert Slice(looked, req.tenant, reports) == part.(circuits := TenantCircuits(seen, req.tenant));
      if sel.Some? && MutableOk(p, s, req) {
        IssueLocal(p, looked, req, sel.value, now, id, reports);
      }
    }
  }

  /** So does settling a permit. */
  lemma SettleLocal(p: Policy, s: State, permit: Permit, report: Report, verified: bool, now: int, reports: set<ReportId>)
    requires p.Valid() && report.id in reports
    ensures var (s', d) := RecordOutcome(p, s, permit, report, verified, now);
            RecordOutcome(p, Slice(s, permit.body.tenant, reports), permit, report, verified, now)
            == (Slice(s', permit.body.tenant, reports), d)
  {
    var t := permit.body.tenant;
    var part := Slice(s, t, reports);
    assert Acceptable(p, s, permit, report, verified, now) == Acceptable(p, part, permit, report, verified, now);
    if Acceptable(p, s, permit, report, verified, now) {
      var whole := RecordOutcome(p, s, permit, report, verified, now).0;
      var piece := RecordOutcome(p, part, permit, report, verified, now).0;
      assert TenantCircuits(whole.circuits, t) == piece.circuits;
      assert TenantPermits(whole.active, t) == piece.active;
      assert whole.usedReports * reports == piece.usedReports;
      assert TenantPairs(whole.activeEffects, t) == piece.activeEffects;
      assert TenantPairs(whole.committedEffects, t) == piece.committedEffects;
    }
  }

  lemma IssueInvisible(p: Policy, s: State, req: Request, sel: Selection, now: int, id: PermitId,
                       t: TenantId, reports: set<ReportId>)
    requires req.tenant != t && id !in s.active
    ensures Slice(Issue(p, s, req, sel, now, id), t, reports) == Slice(s, t, reports)
  {
    var s' := Issue(p, s, req, sel, now, id);
    assert TenantCircuits(s'.circuits, t) == TenantCircuits(s.circuits, t);
    assert TenantPermits(s'.active, t) == TenantPermits(s.active, t);
    assert TenantPairs(s'.seenAttempts, t) == TenantPairs(s.seenAttempts, t);
    assert TenantPairs(s'.activeEffects, t) == TenantPairs(s.activeEffects, t);
  }

  lemma AdmitInvisible(p: Policy, s: State, req: Request, now: int, id: PermitId, t: TenantId, reports: set<ReportId>)
    requires p.Valid() && req.tenant != t && id !in s.active
    ensures Slice(Authorize(p, s, req, now, id).0, t, reports) == Slice(s, t, reports)
  {
    if StaticOk(p, req) {
      SelectLocal(p, s.circuits, req, now);
      var (seen, sel) := Select(p, s.circuits, req, now);
      if sel.Some? {
        IssueInvisible(p, s.(circuits := seen), req, sel.value, now, id, t, reports);
      }
    }
  }

  lemma SettleInvisible(p: Policy, s: State, permit: Permit, report: Report, verified: bool, now: int,
                        t: TenantId, reports: set<ReportId>)
    requires p.Valid() && permit.body.tenant != t && report.id !in reports
    ensures Slice(RecordOutcome(p, s, permit, report, verified, now).0, t, reports) == Slice(s, t, reports)
  {
    if Acceptable(p, s, permit, report, verified, now) {
      var s' := RecordOutcome(p, s, permit, report, verified, now).0;
      assert TenantCircuits(s'.circuits, t) == TenantCircuits(s.circuits, t);
      assert TenantPermits(s'.active, t) == TenantPermits(s.active, t);
      assert TenantPairs(s'.activeEffects, t) == TenantPairs(s.activeEffects, t);
      assert TenantPairs(s'.committedEffects, t) == TenantPairs(s.committedEffects, t);
    }
  }

  /** No step of one tenant changes the slice of another. */
  lemma OtherTenantsStepIsInvisible(p: Policy, s: State, step: Step, t: TenantId, reports: set<ReportId>)
    requires p.Valid() && StepTenant(step) != t
    requires step.Admit? ==> step.id !in s.active
    requires step.Settle? ==> step.report.id !in reports
    ensures Slice(Apply(p, s, step).0, t, reports) == Slice(s, t, reports)
  {
    match step
    case Admit(req, now, id) => AdmitInvisible(p, s, req, now, id, t, reports);
    case Settle(permit, report, verified, now) => SettleInvisible(p, s, permit, report, verified, now, t, reports);
  }

  /******* Deleting the other tenants from a run *******/

  function OnlyTenant(run: seq<Step>, t: TenantId): seq<Step> {
    if run == [] then [] else
      var n := |run| - 1;
      OnlyTenant(run[..n], t) + (if StepTenant(run[n]) == t then [run[n]] else [])
  }

  /** The decisions tenant `t` receives along a run, in order. */
  function DecisionsFor(p: Policy, s: State, run: seq<Step>, t: TenantId): seq<Decision>
    requires p.Valid()
  {
    if run == [] then [] else
      var n := |run| - 1;
      DecisionsFor(p, s, run[..n], t) +
      (if StepTenant(run[n]) == t then [Apply(p, Run(p, s, run[..n]), run[n]).1] else [])
  }

  /** `reports` holds every report id of tenant `t` in the run and none of anybody else's. */
  ghost predicate ReportsUnshared(run: seq<Step>, t: TenantId, reports: set<ReportId>) {
    forall i :: 0 <= i < |run| && run[i].Settle? ==>
      (run[i].report.id in reports <==> StepTenant(run[i]) == t)
  }

  /**
   Removing every other tenant's steps from a run, in which report ids are not shared across tenants
   and permit ids are fresh, leaves tenant `t` with exactly the same decisions and the same slice.
   */
  lemma {:induction false} OtherTenantsCanBeDeleted(p: Policy, run: seq<Step>, t: TenantId, reports: set<ReportId>)
    requires p.Valid() && Invariants.FreshIds(run) && ReportsUnshared(run, t, reports)
    ensures DecisionsFor(p, Initial, OnlyTenant(run, t), t) == DecisionsFor(p, Initial, run, t)
    ensures Slice(Run(p, Initial, OnlyTenant(run, t)), t, reports) == Slice(Run(p, Initial, run), t, reports)
  {
    if run != [] {
      var n := |run| - 1;
      OtherTenantsCanBeDeleted(p, run[..n], t, reports);
      var step := run[n];
      var whole, alone := Run(p, Initial, run[..n]), Run(p, Initial, OnlyTenant(run[..n], t));
      assert run[n].Settle? ==> (run[n].report.id in reports <==> StepTenant(run[n]) == t);
      if StepTenant(step) == t {
        assert OnlyTenant(run, t) == OnlyTenant(run[..n], t) + [step];
        assert OnlyTenant(run, t)[..|OnlyTenant(run[..n], t)|] == OnlyTenant(run[..n], t);
        match step
        case Admit(req, now, id) =>
          AdmitLocal(p, whole, req, now, id, reports);
          AdmitLocal(p, alone, req, now, id, reports);
        case Settle(permit, report, verified, now) =>
          SettleLocal(p, whole, permit, report, verified, now, reports);
          SettleLocal(p, alone, permit, report, verified, now, reports);
      } else {
        if step.Admit? { Invariants.FreshAtEnd(p, run); }
        OtherTenantsStepIsInvisible(p, whole, step, t, reports);
        assert OnlyTenant(run, t) == OnlyTenant(run[..n], t);
      }
    }
  }
}
