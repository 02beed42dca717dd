/**
 Specification of the failure-containment manager: per-tenant circuit breakers over a
 sliding window, single-use permits, retry sequencing, idempotency reservations,
 failure domains and fallbacks.

 Identifiers are only ever compared, so they are integers; timestamps are integers.
 A digest is injective, so a digest field holds the very value it digests.
 An absent circuit entry and a freshly created one are the same circuit.
 */
module FailureModel {
  import opened Wrappers

  type TenantId = int
  type DependencyId = int
  type DomainId = int
  type FallbackId = int
  type Digest = int
  type PermitId = int
  type ReportId = int
  type EffectKey = (TenantId, int)
  type CircuitKey = (TenantId, DependencyId)

  /******* Policy *******/

  datatype Breaker = Breaker(
    windowSize: nat,
    minimumSamples: nat,
    errorRate: real,
    averageLatency: real,
    cumulativeCost: real,
    abnormalCalls: nat,
    openSeconds: nat)
  {
    predicate Valid() {
      && 1 <= minimumSamples <= windowSize
      && 0.0 < errorRate <= 1.0
      && 0.0 < averageLatency
      && 0.0 < cumulativeCost
      && 1 <= abnormalCalls
      && 1 <= openSeconds
    }
  }

  datatype Health = Healthy | Degraded | Unavailable

  datatype Dependency = Dependency(
    domain: DomainId,
    health: Health,
    allowedTenants: set<TenantId>,
    allowedFallbacks: set<FallbackId>,
    breaker: Breaker)

  datatype Fallback = Fallback(
    primary: DependencyId,
    target: DependencyId,
    artifact: Digest,
    allowedTenants: set<TenantId>)

  datatype Policy = Policy(
    dependencies: map<DependencyId, Dependency>,
    maxOpen: map<DomainId, nat>,
    fallbacks: map<FallbackId, Fallback>,
    maxRetries: nat,
    maxRecursion: nat,
    maxCost: real,
    maxAbnormal: nat,
    permitTtl: nat)
  {
    /** What the policy's own validator demands of its inventory. */
    predicate Valid() {
      && (forall d :: d in dependencies ==>
            dependencies[d].breaker.Valid() && dependencies[d].domain in maxOpen)
      && (forall f :: f in fallbacks ==>
            && fallbacks[f].primary in dependencies && fallbacks[f].target in dependencies
            && f in dependencies[fallbacks[f].primary].allowedFallbacks
            && dependencies[fallbacks[f].primary].domain != dependencies[fallbacks[f].target].domain)
      && 1 <= permitTtl
    }
  }

  /** An empty allow-list admits every tenant. */
  predicate TenantAllowed(allowed: set<TenantId>, tenant: TenantId) {
    allowed == {} || tenant in allowed
  }

  /******* Circuits *******/

  datatype Sample = Sample(success: bool, latency: real, cost: real, abnormal: nat)

  datatype CircuitState = Closed | Open | HalfOpen

  datatype Circuit = Circuit(
    samples: seq<Sample>,
    state: CircuitState,
    openedAt: Option<int>,
    probe: bool)

  const FreshCircuit := Circuit([], Closed, None, false)

  function Errors(s: seq<Sample>): nat {
    if s == [] then 0 else (if s[0].success then 0 else 1) + Errors(s[1..])
  }

  function TotalLatency(s: seq<Sample>): real {
    if s == [] then 0.0 else s[0].latency + TotalLatency(s[1..])
  }

  function TotalCost(s: seq<Sample>): real {
    if s == [] then 0.0 else s[0].cost + TotalCost(s[1..])
  }

  function TotalAbnormal(s: seq<Sample>): nat {
    if s == [] then 0 else s[0].abnormal + TotalAbnormal(s[1..])
  }

  function ErrorRate(s: seq<Sample>): real {
    if s == [] then 0.0 else Errors(s) as real / |s| as real
  }

  function AverageLatency(s: seq<Sample>): real {
    if s == [] then 0.0 else TotalLatency(s) / |s| as real
  }

  /** The window reaches one of the four trip thresholds. */
  predicate Crossed(b: Breaker, s: seq<Sample>) {
    || (|s| >= b.minimumSamples && ErrorRate(s) >= b.errorRate)
    || (|s| >= b.minimumSamples && AverageLatency(s) >= b.averageLatency)
    || TotalCost(s) >= b.cumulativeCost
    || TotalAbnormal(s) >= b.abnormalCalls
  }

  /** The most recent `w` samples: what a deque bounded by `w` retains. */
  function LastN(s: seq<Sample>, w: nat): seq<Sample> {
    if |s| <= w then s else s[|s| - w..]
  }

  /** One accepted outcome, applied to the circuit it belongs to. */
  function AfterOutcome(b: Breaker, c: Circuit, x: Sample, now: int): Circuit {
    var samples := LastN(c.samples + [x], b.windowSize);
    if c.state == HalfOpen && x.success && !Crossed(b, samples) then
      FreshCircuit
    else if Crossed(b, samples) || (c.state == HalfOpen && !x.success) then
      Circuit(samples, Open, Some(now), false)
    else
      c.(samples := samples, probe := false)
  }

  /** An open circuit becomes half-open once its cool-down has passed. */
  function Advance(b: Breaker, c: Circuit, now: int): Circuit {
    if c.state == Open && c.openedAt.Some? && now >= c.openedAt.value + b.openSeconds then
      c.(state := HalfOpen, probe := false)
    else
      c
  }

  /******* Requests, permits and reports *******/

  datatype Request = Request(
    tenant: TenantId,
    attempt: int,
    operation: int,
    dependency: DependencyId,
    retryCount: nat,
    recursionDepth: nat,
    expectedCost: real,
    abnormalCalls: nat,
    sideEffecting: bool,
    key: Option<int>,
    fallback: Option<(FallbackId, Digest)>,
    intact: bool)

  datatype PermitBody = PermitBody(
    id: PermitId,
    tenant: TenantId,
    operation: int,
    attempt: int,
    primary: DependencyId,
    selected: DependencyId,
    fallback: Option<FallbackId>,
    key: Option<int>,
    issuedAt: int,
    expiresAt: int)

  /** A permit as a caller presents it; it is intact when it carries its own digest. */
  datatype Permit = Permit(body: PermitBody, digest: PermitBody)

  datatype ActivePermit = ActivePermit(digest: PermitBody, sideEffecting: bool, retryCount: nat)

  datatype Report = Report(
    id: ReportId,
    permitId: PermitId,
    permitDigest: PermitBody,
    sample: Sample,
    committed: bool,
    completedAt: int,
    intact: bool)

  /******* Manager state *******/

  datatype State = State(
    circuits: map<CircuitKey, Circuit>,
    active: map<PermitId, ActivePermit>,
    usedReports: set<ReportId>,
    seenAttempts: set<(TenantId, int)>,
    attempts: map<(TenantId, int), nat>,
    activeEffects: set<EffectKey>,
    committedEffects: set<EffectKey>)

  const Initial := State(map[], map[], {}, {}, map[], {}, {})

  function CircuitAt(circuits: map<CircuitKey, Circuit>, k: CircuitKey): Circuit {
    if k in circuits then circuits[k] else FreshCircuit
  }

  function AttemptsOf(attempts: map<(TenantId, int), nat>, k: (TenantId, int)): nat {
    if k in attempts then attempts[k] else 0
  }

  /******* Admission *******/

  predicate StaticOk(p: Policy, req: Request) {
    && req.intact
    && req.dependency in p.dependencies
    && req.retryCount <= p.maxRetries
    && req.recursionDepth <= p.maxRecursion
    && req.expectedCost <= p.maxCost
    && req.abnormalCalls <= p.maxAbnormal
    && TenantAllowed(p.dependencies[req.dependency].allowedTenants, req.tenant)
  }

  predicate MutableOk(p: Policy, s: State, req: Request) {
    && (req.tenant, req.attempt) !in s.seenAttempts
    && AttemptsOf(s.attempts, (req.tenant, req.operation)) <= p.maxRetries
    && req.retryCount == AttemptsOf(s.attempts, (req.tenant, req.operation))
    && (req.sideEffecting ==>
          && req.key.Some?
          && (req.tenant, req.key.value) !in s.activeEffects
          && (req.tenant, req.key.value) !in s.committedEffects)
  }

  /** Advance the tenant's circuits of the given dependencies. */
  function AdvanceAll(p: Policy, circuits: map<CircuitKey, Circuit>, t: TenantId,
                      ids: set<DependencyId>, now: int): map<CircuitKey, Circuit>
  {
    map k | k in circuits ::
      if k.0 == t && k.1 in ids && k.1 in p.dependencies then
        Advance(p.dependencies[k.1].breaker, circuits[k], now)
      else
        circuits[k]
  }

  function DomainMembers(p: Policy, domain: DomainId): set<DependencyId> {
    set d | d in p.dependencies && p.dependencies[d].domain == domain
  }

  /** Members of a failure domain whose circuit for this tenant is not closed. */
  function TrippedIn(p: Policy, circuits: map<CircuitKey, Circuit>, t: TenantId, domain: DomainId)
    : set<DependencyId>
  {
    set d | d in DomainMembers(p, domain) && CircuitAt(circuits, (t, d)).state != Closed
  }

  /** Whether a dependency can take a call now, and the circuits after looking. */
  function Availability(p: Policy, circuits: map<CircuitKey, Circuit>, t: TenantId,
                        dep: DependencyId, now: int): (map<CircuitKey, Circuit>, bool)
    requires p.Valid() && dep in p.dependencies
  {
    var d := p.dependencies[dep];
    if d.health != Healthy then
      (circuits, false)
    else
      var own := AdvanceAll(p, circuits, t, {dep}, now);
      match CircuitAt(own, (t, dep)).state
      case Open => (own, false)
      case HalfOpen => (own, !CircuitAt(own, (t, dep)).probe)
      case Closed =>
        var all := AdvanceAll(p, own, t, DomainMembers(p, d.domain), now);
        (all, |TrippedIn(p, all, t, d.domain)| < p.maxOpen[d.domain])
  }

  predicate FallbackOk(p: Policy, req: Request, fid: FallbackId, artifact: Digest)
    requires p.Valid() && req.dependency in p.dependencies && fid in p.fallbacks
  {
    var f := p.fallbacks[fid];
    && f.primary == req.dependency
    && fid in p.dependencies[req.dependency].allowedFallbacks
    && f.artifact == artifact
    && TenantAllowed(f.allowedTenants, req.tenant)
    && TenantAllowed(p.dependencies[f.target].allowedTenants, req.tenant)
  }

  datatype Selection = Selection(dependency: DependencyId, fallback: Option<FallbackId>)

  /** The dependency a request may be dispatched to, if any. */
  function Select(p: Policy, circuits: map<CircuitKey, Circuit>, req: Request, now: int)
    : (map<CircuitKey, Circuit>, Option<Selection>)
    requires p.Valid() && req.dependency in p.dependencies
  {
    var (seen, available) := Availability(p, circuits, req.tenant, req.dependency, now);
    if available then
      (seen, if req.fallback.None? then Some(Selection(req.dependency, None)) else None)
    else if req.fallback.None? || req.fallback.value.0 !in p.fallbacks then
      (seen, None)
    else
      var (fid, artifact) := req.fallback.value;
      var target := p.fallbacks[fid].target;
      var (seen', ready) := Availability(p, seen, req.tenant, target, now);
      (seen', if ready && FallbackOk(p, req, fid, artifact)
              then Some(Selection(target, Some(fid))) else None)
  }

  function PermitFor(p: Policy, req: Request, sel: Selection, now: int, id: PermitId): PermitBody {
    PermitBody(id, req.tenant, req.operation, req.attempt, req.dependency, sel.dependency,
               sel.fallback, req.key, now, now + p.permitTtl)
  }

  function Issue(p: Policy, s: State, req: Request, sel: Selection, now: int, id: PermitId): State {
    var k := (req.tenant, sel.dependency);
    var c := CircuitAt(s.circuits, k);
    var op := (req.tenant, req.operation);
    State(
      if c.state == HalfOpen then s.circuits[k := c.(probe := true)] else s.circuits,
      s.active[id := ActivePermit(PermitFor(p, req, sel, now, id), req.sideEffecting, req.retryCount)],
      s.usedReports,
      s.seenAttempts + {(req.tenant, req.attempt)},
      s.attempts[op := AttemptsOf(s.attempts, op) + 1],
      if req.sideEffecting && req.key.Some?
        then s.activeEffects + {(req.tenant, req.key.value)} else s.activeEffects,
      s.committedEffects)
  }

  datatype Decision = Blocked | Permitted(permit: PermitBody) | Rejected | Recorded(allow: bool)

  function Authorize(p: Policy, s: State, req: Request, now: int, id: PermitId): (State, Decision)
    requires p.Valid()
  {
    if !StaticOk(p, req) then
      (s, Blocked)
    else
      var (circuits, sel) := Select(p, s.circuits, req, now);
      var looked := s.(circuits := circuits);
      if sel.None? || !MutableOk(p, s, req) then
        (looked, Blocked)
      else
        (Issue(p, looked, req, sel.value, now, id), Permitted(PermitFor(p, req, sel.value, now, id)))
  }

  /******* Outcomes *******/

  predicate Acceptable(p: Policy, s: State, permit: Permit, report: Report, verified: bool, now: int) {
    && permit.body == permit.digest
    && report.intact
    && verified
    && report.permitId == permit.body.id
    && report.permitDigest == permit.digest
    && now <= permit.body.expiresAt
    && permit.body.issuedAt <= report.completedAt <= now
    && permit.body.selected in p.dependencies
    && permit.body.id in s.active
    && s.active[permit.body.id].digest == permit.digest
    && report.id !in s.usedReports
  }

  function RecordOutcome(p: Policy, s: State, permit: Permit, report: Report, verified: bool, now: int)
    : (State, Decision)
    requires p.Valid()
  {
    if !Acceptable(p, s, permit, report, verified, now) then
      (s, Rejected)
    else
      var body := permit.body;
      var b := p.dependencies[body.selected].breaker;
      var k := (body.tenant, body.selected);
      var before := CircuitAt(s.circuits, k);
      var held := if body.key.Some? then {(body.tenant, body.key.value)} else {};
      (State(
         s.circuits[k := AfterOutcome(b, before, report.sample, now)],
         s.active - {body.id},
         s.usedReports + {report.id},
         s.seenAttempts,
         s.attempts,
         s.activeEffects - held,
         if report.committed then s.committedEffects + held else s.committedEffects),
       Recorded(&& report.sample.success
                && report.sample.cost <= p.maxCost
                && !Crossed(b, LastN(before.samples + [report.sample], b.windowSize))))
  }

  /******* Runs *******/

  datatype Step =
    | Admit(req: Request, now: int, id: PermitId)
    | Settle(permit: Permit, report: Report, verified: bool, now: int)

  function StepTenant(step: Step): TenantId {
    match step
    case Admit(req, _, _) => req.tenant
    case Settle(permit, _, _, _) => permit.body.tenant
  }

  function Apply(p: Policy, s: State, step: Step): (State, Decision)
    requires p.Valid()
  {
    match step
    case Admit(req, now, id) => Authorize(p, s, req, now, id)
    case Settle(permit, report, verified, now) => RecordOutcome(p, s, permit, report, verified, now)
  }

  /** The state after a whole run; states in between are runs of prefixes. */
  function Run(p: Policy, s: State, run: seq<Step>): State
    requires p.Valid()
  {
    if run == [] then s else Apply(p, Run(p, s, run[..|run| - 1]), run[|run| - 1]).0
  }

  function DecisionAt(p: Policy, s: State, run: seq<Step>, i: nat): Decision
    requires p.Valid() && i < |run|
  {
    Apply(p, Run(p, s, run[..i]), run[i]).1
  }
}
