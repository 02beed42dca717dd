/** Which attempts are permitted and which outcomes are recorded, in terms of what went before in the run. */
module FailureAdmission {
  import opened Wrappers
  import opened FailureModel
  import opened FailureInvariants

  /******* Availability, on the circuits as they were *******/

  /** Dependencies of the domain whose circuit for this tenant is open or half-open. */
  function NotClosed(p: Policy, circuits: map<CircuitKey, Circuit>, t: TenantId, domain: DomainId): set<DependencyId> {
    set d | d in p.dependencies && p.dependencies[d].domain == domain
            && (t, d) in circuits && circuits[(t, d)].state != Closed
  }

  /**
   A dependency can take a call: it is healthy, and its circuit is closed in a domain below its limit, or
   half-open with its probe unused, or open for long enough to be probed now.
   */
  predicate Ready(p: Policy, circuits: map<CircuitKey, Circuit>, t: TenantId, d: DependencyId, now: int)
    requires p.Valid() && d in p.dependencies
  {
    var c := CircuitAt(circuits, (t, d));
    && p.dependencies[d].health == Healthy
    && match c.state
       case Closed => |NotClosed(p, circuits, t, p.dependencies[d].domain)| < p.maxOpen[p.dependencies[d].domain]
       case HalfOpen => !c.probe
       case Open => c.openedAt.Some? && now >= c.openedAt.value + p.dependencies[d].breaker.openSeconds
  }

  /** Looking at circuits closes and opens none. */
  ghost predicate SameClosed(x: map<CircuitKey, Circuit>, y: map<CircuitKey, Circuit>) {
    x.Keys == y.Keys && forall k :: k in x ==> (x[k].state == Closed <==> y[k].state == Closed)
  }

  lemma AdvancingKeepsClosed(p: Policy, circuits: map<CircuitKey, Circuit>, t: TenantId, ids: set<DependencyId>, now: int)
    ensures SameClosed(circuits, AdvanceAll(p, circuits, t, ids, now))
  {
  }

  lemma SameClosedSameCount(p: Policy, x: map<CircuitKey, Circuit>, y: map<CircuitKey, Circuit>, t: TenantId, domain: DomainId)
    requires SameClosed(x, y)
    ensures NotClosed(p, x, t, domain) == NotClosed(p, y, t, domain)
    ensures TrippedIn(p, x, t, domain) == NotClosed(p, x, t, domain)
  {
    forall d ensures d in NotClosed(p, x, t, domain) <==> d in NotClosed(p, y, t, domain) {
      if (t, d) in x { assert x[(t, d)].state == Closed <==> y[(t, d)].state == Closed; }
    }
    forall d ensures d in TrippedIn(p, x, t, domain) <==> d in NotClosed(p, x, t, domain) {
    }
  }

  lemma LookingKeepsClosed(p: Policy, circuits: map<CircuitKey, Circuit>, t: TenantId, d: DependencyId, now: int)
    requires p.Valid() && d in p.dependencies
    ensures SameClosed(circuits, Availability(p, circuits, t, d, now).0)
  {
    var own := AdvanceAll(p, circuits, t, {d}, now);
    AdvancingKeepsClosed(p, circuits, t, {d}, now);
    AdvancingKeepsClosed(p, own, t, DomainMembers(p, p.dependencies[d].domain), now);
  }

  lemma OwnCircuitAdvanced(p: Policy, circuits: map<CircuitKey, Circuit>, t: TenantId, d: DependencyId, now: int)
    requires p.Valid() && d in p.dependencies
    ensures CircuitAt(AdvanceAll(p, circuits, t, {d}, now), (t, d))
            == Advance(p.dependencies[d].breaker, CircuitAt(circuits, (t, d)), now)
  {
  }

  lemma AvailableIffReady(p: Policy, circuits: map<CircuitKey, Circuit>, t: TenantId, d: DependencyId, now: int)
    requires p.Valid() && d in p.dependencies
    ensures Availability(p, circuits, t, d, now).1 <==> Ready(p, circuits, t, d, now)
  {
    var own := AdvanceAll(p, circuits, t, {d}, now);
    var domain := p.dependencies[d].domain;
    var all := AdvanceAll(p, own, t, DomainMembers(p, domain), now);
    OwnCircuitAdvanced(p, circuits, t, d, now);
    AdvancingKeepsClosed(p, circuits, t, {d}, now);
    AdvancingKeepsClosed(p, own, t, DomainMembers(p, domain), now);
    SameClosedSameCount(p, circuits, own, t, domain);
    SameClosedSameCount(p, own, all, t, domain);
    SameClosedSameCount(p, all, all, t, domain);
  }

  /** Having looked at a dependency of another domain does not matter. */
  lemma ReadyAfterLooking(p: Policy, circuits: map<CircuitKey, Circuit>, t: TenantId, d: DependencyId, e: DependencyId, now: int)
    requires p.Valid() && d in p.dependencies && e in p.dependencies
    requires p.dependencies[d].domain != p.dependencies[e].domain
    ensures Ready(p, Availability(p, circuits, t, d, now).0, t, e, now) <==> Ready(p, circuits, t, e, now)
  {
    var seen := Availability(p, circuits, t, d, now).0;
    LookingIsLocal(p, circuits, t, d, now, e);
    LookingKeepsClosed(p, circuits, t, d, now);
    SameClosedSameCount(p, circuits, seen, t, p.dependencies[e].domain);
  }

  /******* Who is selected *******/

  predicate FallbackFits(p: Policy, req: Request)
    requires p.Valid() && req.fallback.Some?
  {
    var (fid, artifact) := req.fallback.value;
    && fid in p.fallbacks
    && var f := p.fallbacks[fid];
       && f.primary == req.dependency && f.artifact == artifact
       && (f.allowedTenants == {} || req.tenant in f.allowedTenants)
       && (p.dependencies[f.target].allowedTenants == {} || req.tenant in p.dependencies[f.target].allowedTenants)
  }

  /** The dependency the request may be sent to, given the circuits before anybody looked. */
  function Chosen(p: Policy, circuits: map<CircuitKey, Circuit>, req: Request, now: int): Option<Selection>
    requires p.Valid() && req.dependency in p.dependencies
  {
    if Ready(p, circuits, req.tenant, req.dependency, now) then
      if req.fallback.None? then Some(Selection(req.dependency, None)) else None
    else if req.fallback.Some? && FallbackFits(p, req)
            && Ready(p, circuits, req.tenant, p.fallbacks[req.fallback.value.0].target, now) then
      Some(Selection(p.fallbacks[req.fallback.value.0].target, Some(req.fallback.value.0)))
    else
      None
  }

  lemma SelectedIsChosen(p: Policy, circuits: map<CircuitKey, Circuit>, req: Request, now: int)
    requires p.Valid() && req.dependency in p.dependencies
    ensures Select(p, circuits, req, now).1 == Chosen(p, circuits, req, now)
  {
    var seen := Availability(p, circuits, req.tenant, req.dependency, now).0;
    AvailableIffReady(p, circuits, req.tenant, req.dependency, now);
    if req.fallback.Some? {
      var fid := req.fallback.value.0;
      if fid in p.fallbacks {
        var f := p.fallbacks[fid];
        AvailableIffReady(p, seen, req.tenant, f.target, now);
        if f.primary == req.dependency {
          ReadyAfterLooking(p, circuits, req.tenant, req.dependency, f.target, now);
        }
      }
    }
  }

  /******* What the tables record of a run *******/

  /** Step `j` was granted this permit. */
  ghost predicate PermittedAt(p: Policy, run: seq<Step>, j: nat, body: PermitBody)
    requires p.Valid() && j < |run|
  {
    run[j].Admit? && DecisionAt(p, Initial, run, j) == Permitted(body)
  }

  /** One of the first `n` steps granted this permit. */
  ghost predicate Granted(p: Policy, run: seq<Step>, n: nat, body: PermitBody)
    requires p.Valid() && n <= |run|
  {
    exists j :: 0 <= j < n && PermittedAt(p, run, j, body)
  }

  /** One of the first `n` steps recorded an outcome of this permit. */
  ghost predicate Settled(p: Policy, run: seq<Step>, n: nat, id: PermitId)
    requires p.Valid() && n <= |run|
  {
    exists j :: 0 <= j < n && RecordedAt(p, run, j) && run[j].permit.body.id == id
  }

  /** One of the first `n` steps recorded this report. */
  ghost predicate Reported(p: Policy, run: seq<Step>, n: nat, report: ReportId)
    requires p.Valid() && n <= |run|
  {
    exists j :: 0 <= j < n && RecordedAt(p, run, j) && run[j].report.id == report
  }

  /** One of the first `n` steps was granted a permit for this attempt. */
  ghost predicate Attempted(p: Policy, run: seq<Step>, n: nat, t: TenantId, attempt: int)
    requires p.Valid() && n <= |run|
  {
    exists j :: 0 <= j < n && run[j].Admit? && DecisionAt(p, Initial, run, j).Permitted?
      && run[j].req.tenant == t && run[j].req.attempt == attempt
  }

  predicate Holds(s: State, body: PermitBody) {
    body.id in s.active && s.active[body.id].digest == body
  }

  lemma StepHolds(p: Policy, s: State, step: Step, body: PermitBody)
    requires p.Valid() && PermitsNamed(s) && (step.Admit? ==> step.id !in s.active)
    ensures var (after, d) := Apply(p, s, step);
            && (Holds(after, body) <==>
                  || (step.Admit? && d == Permitted(body))
                  || (Holds(s, body) && !(step.Settle? && d.Recorded? && step.permit.body.id == body.id)))
            && PermitsNamed(after)
  {
  }

  lemma StepReports(p: Policy, s: State, step: Step, report: ReportId, t: TenantId, attempt: int)
    requires p.Valid()
    ensures var (after, d) := Apply(p, s, step);
            && (report in after.usedReports <==>
                  report in s.usedReports || (step.Settle? && d.Recorded? && step.report.id == report))
            && ((t, attempt) in after.seenAttempts <==>
                  || (t, attempt) in s.seenAttempts
                  || (step.Admit? && d.Permitted? && step.req.tenant == t && step.req.attempt == attempt))
  {
  }

  lemma GrantedOneMore(p: Policy, run: seq<Step>, n: nat, body: PermitBody)
    requires p.Valid() && n < |run|
    ensures Granted(p, run, n + 1, body) <==> Granted(p, run, n, body) || PermittedAt(p, run, n, body)
  {
  }

  lemma SettledOneMore(p: Policy, run: seq<Step>, n: nat, id: PermitId)
    requires p.Valid() && n < |run|
    ensures Settled(p, run, n + 1, id) <==>
            Settled(p, run, n, id) || (RecordedAt(p, run, n) && run[n].permit.body.id == id)
  {
  }

  ghost predicate HoldsAt(p: Policy, run: seq<Step>, n: nat, body: PermitBody)
    requires p.Valid() && n <= |run|
  {
    Holds(Run(p, Initial, run[..n]), body)
  }

  lemma HoldsOneMore(p: Policy, run: seq<Step>, n: nat, body: PermitBody)
    requires p.Valid() && FreshIds(run) && n < |run|
    ensures HoldsAt(p, run, n + 1, body) <==>
            || PermittedAt(p, run, n, body)
            || (HoldsAt(p, run, n, body) && !(RecordedAt(p, run, n) && run[n].permit.body.id == body.id))
  {
    RunUnfolds(p, Initial, run, n);
    NamedAt(p, run, n);
    if run[n].Admit? {
      assert run[..n + 1][..n] == run[..n];
      FreshAtEnd(p, run[..n + 1]);
    }
    StepHolds(p, Run(p, Initial, run[..n]), run[n], body);
  }

  lemma NamedAt(p: Policy, run: seq<Step>, n: nat)
    requires p.Valid() && n <= |run|
    ensures PermitsNamed(Run(p, Initial, run[..n]))
  {
    var s := Run(p, Initial, run[..n]);
    forall id | id in s.active ensures s.active[id].digest.id == id { ActiveIdsComeFromRun(p, run[..n], id); }
  }

  /** A permit is granted only under the id of its step. */
  lemma PermitCarriesId(p: Policy, run: seq<Step>, n: nat, body: PermitBody)
    requires p.Valid() && n < |run| && PermittedAt(p, run, n, body)
    ensures run[n].id == body.id
  {
  }

  lemma SettledWasOffered(p: Policy, run: seq<Step>, n: nat, id: PermitId)
    requires p.Valid() && n <= |run| && Settled(p, run, n, id)
    ensures exists i :: 0 <= i < n && run[i].Admit? && run[i].id == id
  {
    var j :| 0 <= j < n && RecordedAt(p, run, j) && run[j].permit.body.id == id;
    ActiveIdsComeFromRun(p, run[..j], id);
    var i :| 0 <= i < |run[..j]| && run[..j][i].Admit? && run[..j][i].id == id;
    assert run[i].Admit? && run[i].id == id;
  }

  lemma NewPermitNotSettled(p: Policy, run: seq<Step>, n: nat, body: PermitBody)
    requires p.Valid() && FreshIds(run) && n < |run| && PermittedAt(p, run, n, body)
    ensures !Settled(p, run, n, body.id)
  {
    PermitCarriesId(p, run, n, body);
    if Settled(p, run, n, body.id) { SettledWasOffered(p, run, n, body.id); }
  }

  /** The active permits are those granted and not yet settled, unaltered. */
  lemma {:induction false} ActiveIffOutstanding(p: Policy, run: seq<Step>, n: nat, body: PermitBody)
    requires p.Valid() && FreshIds(run) && n <= |run|
    ensures HoldsAt(p, run, n, body) <==> Granted(p, run, n, body) && !Settled(p, run, n, body.id)
  {
    if n > 0 {
      ActiveIffOutstanding(p, run, n - 1, body);
      HoldsOneMore(p, run, n - 1, body);
      GrantedOneMore(p, run, n - 1, body);
      SettledOneMore(p, run, n - 1, body.id);
      if PermittedAt(p, run, n - 1, body) { NewPermitNotSettled(p, run, n - 1, body); }
    }
  }

  lemma TablesOneMore(p: Policy, run: seq<Step>, n: nat, report: ReportId, t: TenantId, attempt: int)
    requires p.Valid() && n < |run|
    ensures report in Run(p, Initial, run[..n + 1]).usedReports <==>
            report in Run(p, Initial, run[..n]).usedReports || (RecordedAt(p, run, n) && run[n].report.id == report)
    ensures (t, attempt) in Run(p, Initial, run[..n + 1]).seenAttempts <==>
            || (t, attempt) in Run(p, Initial, run[..n]).seenAttempts
            || (run[n].Admit? && DecisionAt(p, Initial, run, n).Permitted?
                && run[n].req.tenant == t && run[n].req.attempt == attempt)
  {
    RunUnfolds(p, Initial, run, n);
    StepReports(p, Run(p, Initial, run[..n]), run[n], report, t, attempt);
  }

  lemma ReportedOneMore(p: Policy, run: seq<Step>, n: nat, report: ReportId, t: TenantId, attempt: int)
    requires p.Valid() && n < |run|
    ensures Reported(p, run, n + 1, report) <==> Reported(p, run, n, report) || (RecordedAt(p, run, n) && run[n].report.id == report)
    ensures Attempted(p, run, n + 1, t, attempt) <==>
            || Attempted(p, run, n, t, attempt)
            || (run[n].Admit? && DecisionAt(p, Initial, run, n).Permitted?
                && run[n].req.tenant == t && run[n].req.attempt == attempt)
  {
  }

  /** Reports and attempts count as used exactly when an earlier step used them. */
  lemma {:induction false} TablesAreHistory(p: Policy, run: seq<Step>, n: nat, report: ReportId, t: TenantId, attempt: int)
    requires p.Valid() && n <= |run|
    ensures report in Run(p, Initial, run[..n]).usedReports <==> Reported(p, run, n, report)
    ensures (t, attempt) in Run(p, Initial, run[..n]).seenAttempts <==> Attempted(p, run, n, t, attempt)
  {
    if n > 0 {
      TablesAreHistory(p, run, n - 1, report, t, attempt);
      TablesOneMore(p, run, n - 1, report, t, attempt);
      ReportedOneMore(p, run, n - 1, report, t, attempt);
    }
  }

  /******* The decisions *******/

  /** What a request must meet whatever has happened before. */
  predicate WithinPolicy(p: Policy, req: Request) {
    && req.intact && req.dependency in p.dependencies
    && req.retryCount <= p.maxRetries && req.recursionDepth <= p.maxRecursion
    && req.expectedCost <= p.maxCost && req.abnormalCalls <= p.maxAbnormal
    && (p.dependencies[req.dependency].allowedTenants == {} || req.tenant in p.dependencies[req.dependency].allowedTenants)
  }

  /** What it must meet of the run so far: a new attempt, the next retry of its operation, and an unused key. */
  ghost predicate NextAttempt(p: Policy, run: seq<Step>, i: nat, req: Request)
    requires p.Valid() && i <= |run|
  {
    var s := Run(p, Initial, run[..i]);
    && !Attempted(p, run, i, req.tenant, req.attempt)
    && req.retryCount == |IssuedRetries(p, run[..i], (req.tenant, req.operation))|
    && (req.sideEffecting ==>
          && req.key.Some?
          && (req.tenant, req.key.value) !in s.activeEffects && (req.tenant, req.key.value) !in s.committedEffects)
  }

  /**
   In any run an attempt is permitted exactly when it is within policy, is the next attempt of its operation,
   and some dependency may be chosen for it; the permit names that dependency and lasts for the permit lifetime.
   */
  lemma PermittedIff(p: Policy, run: seq<Step>, i: nat, body: PermitBody)
    requires p.Valid() && i < |run| && run[i].Admit?
    ensures DecisionAt(p, Initial, run, i) == Permitted(body) <==>
            && WithinPolicy(p, run[i].req) && NextAttempt(p, run, i, run[i].req)
            && var req := run[i].req;
               var chosen := Chosen(p, Run(p, Initial, run[..i]).circuits, req, run[i].now);
               && chosen.Some?
               && body == PermitBody(run[i].id, req.tenant, req.operation, req.attempt, req.dependency,
                                     chosen.value.dependency, chosen.value.fallback, req.key,
                                     run[i].now, run[i].now + p.permitTtl)
  {
    var s := Run(p, Initial, run[..i]);
    var req := run[i].req;
    TablesAreHistory(p, run, i, 0, req.tenant, req.attempt);
    RetriesAreSequential(p, run[..i], (req.tenant, req.operation));
    if req.dependency in p.dependencies { SelectedIsChosen(p, s.circuits, req, run[i].now); }
  }

  /**
   In any run an outcome is recorded exactly when its permit is an unaltered one of the run not yet settled,
   still valid, the report is authentic, made for it within its time, and not used before.
   */
  lemma RecordedIff(p: Policy, run: seq<Step>, i: nat)
    requires p.Valid() && FreshIds(run) && i < |run| && run[i].Settle?
    ensures var permit, report, now := run[i].permit, run[i].report, run[i].now;
            DecisionAt(p, Initial, run, i).Recorded? <==>
              && permit.body == permit.digest && permit.body.selected in p.dependencies
              && Granted(p, run, i, permit.body) && !Settled(p, run, i, permit.body.id)
              && report.intact && run[i].verified
              && report.permitId == permit.body.id && report.permitDigest == permit.digest
              && now <= permit.body.expiresAt
              && permit.body.issuedAt <= report.completedAt && report.completedAt <= now
              && !Reported(p, run, i, report.id)
  {
    ActiveIffOutstanding(p, run, i, run[i].permit.body);
    TablesAreHistory(p, run, i, run[i].report.id, 0, 0);
  }
}
