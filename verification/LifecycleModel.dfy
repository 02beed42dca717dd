/**
 Specification of the data-lifecycle catalogue: registration, derivation, use, and the planning and
 execution of deletions.

 A digest is injective, so a reference to a record version holds that very version. Whether an
 object presented by a caller still matches its own digest is a boolean input.
 */
module LifecycleModel {
  import opened Wrappers

  type ArtifactId = int
  type TenantId = int
  type Tombstone = (int, ArtifactId)   // the plan it was made for, the artifact it marks

  /******* Records *******/

  datatype Classification = Public | Internal | Confidential | Restricted
  {
    function Rank(): nat {
      match this
      case Public => 0
      case Internal => 1
      case Confidential => 2
      case Restricted => 3
    }
  }

  datatype Consent = Granted | Denied | NotApplicable | Withdrawn
  {
    function Rank(): nat {
      match this
      case Granted => 0
      case Denied => 1
      case NotApplicable => 1
      case Withdrawn => 2
    }
  }

  datatype Lifecycle = Lifecycle(
    classification: Classification,
    purposes: set<int>,
    residencies: set<int>,
    retentionUntil: int,
    consent: Consent,
    holds: set<int>,
    subjects: set<int>)

  datatype Capability = HardDelete | CryptoErasure | TombstoneOnly | UnknownCapability

  datatype Location = Location(
    connector: int,
    externalRef: int,
    residency: int,
    capability: Capability,
    backupUntil: Option<int>)

  datatype DeletionState = Active | Tombstoned | Verified | Failed

  datatype Source = Source(artifact: ArtifactId, version: Record)

  datatype Record = Record(
    id: ArtifactId,
    version: nat,
    tenant: TenantId,
    lifecycle: Lifecycle,
    locations: seq<Location>,
    sources: seq<Source>,
    depth: nat,
    content: int,
    createdAt: int,
    state: DeletionState,
    tombstone: Option<Tombstone>)

  type Catalog = map<ArtifactId, Record>

  /** What the record's own validator demands. */
  predicate RecordValid(r: Record) {
    && r.lifecycle.purposes != {} && r.lifecycle.residencies != {}
    && r.locations != []
    && (forall i, j :: 0 <= i < j < |r.locations| ==>
          (r.locations[i].connector, r.locations[i].externalRef)
          != (r.locations[j].connector, r.locations[j].externalRef))
    && (forall i :: 0 <= i < |r.locations| ==> r.locations[i].residency in r.lifecycle.residencies)
    && (forall i, j :: 0 <= i < j < |r.sources| ==> r.sources[i].artifact != r.sources[j].artifact)
    && (forall i :: 0 <= i < |r.sources| ==> r.sources[i].artifact != r.id)
    && (r.sources != [] <==> r.depth > 0)
    && r.createdAt < r.lifecycle.retentionUntil
    && (r.state == Active <==> r.tombstone.None?)
  }

  function Marked(r: Record, state: DeletionState, tombstone: Tombstone): Record {
    r.(version := r.version + 1, state := state, tombstone := Some(tombstone))
  }

  /******* Policy *******/

  datatype Policy = Policy(
    purposes: set<int>,
    residencies: set<int>,
    maxRetention: map<Classification, int>,
    trainable: set<Classification>,
    planTtl: int,
    maxArtifacts: nat,
    maxSources: nat,
    maxDepth: nat,
    maxActions: nat)
  {
    predicate Valid() {
      && (forall c: Classification :: c in maxRetention)
      && 1 <= planTtl
    }
  }

  /** What every record must satisfy to enter the catalogue. */
  predicate RecordOk(p: Policy, r: Record)
    requires p.Valid()
  {
    && r.state == Active
    && r.lifecycle.purposes <= p.purposes
    && r.lifecycle.residencies <= p.residencies
    && r.lifecycle.retentionUntil - r.createdAt <= p.maxRetention[r.lifecycle.classification]
    && (r.lifecycle.consent == Granted ==> r.lifecycle.classification in p.trainable)
  }

  /** `child` preserves every restriction of `parent`. */
  predicate AtLeastAsStrict(child: Lifecycle, parent: Lifecycle) {
    && child.classification.Rank() >= parent.classification.Rank()
    && child.purposes <= parent.purposes
    && child.residencies <= parent.residencies
    && child.retentionUntil <= parent.retentionUntil
    && child.consent.Rank() >= parent.consent.Rank()
    && child.holds >= parent.holds
    && child.subjects >= parent.subjects
  }

  /******* Registration and derivation *******/

  predicate RegisterOk(p: Policy, records: Catalog, r: Record, intact: bool)
    requires p.Valid()
  {
    && intact
    && RecordOk(p, r)
    && r.sources == []
    && r.id !in records
    && |records| < p.maxArtifacts
  }

  function Register(p: Policy, records: Catalog, r: Record, intact: bool): Catalog
    requires p.Valid()
  {
    if RegisterOk(p, records, r, intact) then records[r.id := r] else records
  }

  datatype Derivation = Derivation(
    id: ArtifactId,
    tenant: TenantId,
    sources: seq<Source>,
    lifecycle: Lifecycle,
    locations: seq<Location>,
    content: int,
    createdAt: int)

  /** A source must be the current version of an active record of the same tenant. */
  predicate SourceOk(records: Catalog, d: Derivation, s: Source) {
    && s.artifact in records
    && records[s.artifact] == s.version
    && s.version.state == Active
    && s.version.tenant == d.tenant
  }

  function MaxDepth(sources: seq<Source>): nat {
    if sources == [] then 0 else
      var rest := MaxDepth(sources[1..]);
      if sources[0].version.depth > rest then sources[0].version.depth else rest
  }

  function DerivedRecord(d: Derivation): Record {
    Record(d.id, 1, d.tenant, d.lifecycle, d.locations, d.sources, MaxDepth(d.sources) + 1,
           d.content, d.createdAt, Active, None)
  }

  predicate DeriveOk(p: Policy, records: Catalog, d: Derivation)
    requires p.Valid()
  {
    && d.id !in records
    && |records| < p.maxArtifacts
    && |d.sources| <= p.maxSources
    && (forall i :: 0 <= i < |d.sources| ==> SourceOk(records, d, d.sources[i]))
    && (forall i :: 0 <= i < |d.sources| ==> AtLeastAsStrict(d.lifecycle, d.sources[i].version.lifecycle))
    && MaxDepth(d.sources) + 1 <= p.maxDepth
    && RecordValid(DerivedRecord(d))
    && RecordOk(p, DerivedRecord(d))
  }

  function Derive(p: Policy, records: Catalog, d: Derivation): Catalog
    requires p.Valid()
  {
    if DeriveOk(p, records, d) then records[d.id := DerivedRecord(d)] else records
  }

  /******* Use *******/

  datatype Use = Use(
    artifact: ArtifactId,
    expected: Record,
    tenant: TenantId,
    purpose: int,
    residency: int,
    training: bool,
    requestedRetention: Option<int>)

  predicate UseOk(p: Policy, records: Catalog, u: Use, now: int) {
    && u.artifact in records
    && var r := records[u.artifact];
       && r == u.expected
       && r.state == Active
       && r.tenant == u.tenant
       && u.purpose in r.lifecycle.purposes && u.purpose in p.purposes
       && u.residency in r.lifecycle.residencies && u.residency in p.residencies
       && now < r.lifecycle.retentionUntil
       && (u.requestedRetention.Some? ==> u.requestedRetention.value <= r.lifecycle.retentionUntil)
       && (u.training ==> r.lifecycle.consent == Granted && r.lifecycle.classification in p.trainable)
  }

  /******* Lineage *******/

  /** `parent` is a direct source of `child`. */
  predicate Parent(records: Catalog, child: ArtifactId, parent: ArtifactId) {
    child in records && exists i :: 0 <= i < |records[child].sources| && records[child].sources[i].artifact == parent
  }

  /** A chain of direct sources leading from `x` up to `y`. */
  ghost predicate LineagePath(records: Catalog, path: seq<ArtifactId>, x: ArtifactId, y: ArtifactId) {
    && |path| >= 2 && path[0] == x && path[|path| - 1] == y
    && forall i :: 0 <= i < |path| - 1 ==> Parent(records, path[i], path[i + 1])
  }

  ghost predicate Descends(records: Catalog, x: ArtifactId, y: ArtifactId) {
    exists path :: LineagePath(records, path, x, y)
  }

  ghost predicate InClosure(records: Catalog, seeds: set<ArtifactId>, x: ArtifactId) {
    x in seeds || exists s :: s in seeds && Descends(records, x, s)
  }

  /******* Planning a deletion *******/

  datatype Reason = RetentionExpired | SubjectRequest | ConsentWithdrawn | Administrative

  datatype DeletionRequest = DeletionRequest(
    tenant: TenantId,
    scoped: bool,
    reason: Reason,
    artifacts: set<ArtifactId>,
    subjects: set<int>,
    cascade: bool)

  datatype Action = Action(artifact: ArtifactId, expected: Record, location: Location)

  datatype Plan = Plan(
    request: DeletionRequest,
    actions: seq<Action>,
    held: set<ArtifactId>,
    selected: set<Record>,
    createdAt: int,
    expiresAt: int,
    digest: int,
    intact: bool)

  function PlanArtifacts(plan: Plan): set<ArtifactId> {
    set i | 0 <= i < |plan.actions| :: plan.actions[i].artifact
  }

  predicate TargetsKnown(records: Catalog, q: DeletionRequest) {
    forall a :: a in q.artifacts ==> a in records && records[a].tenant == q.tenant
  }

  function SubjectMatches(records: Catalog, q: DeletionRequest): set<ArtifactId> {
    set a | a in records && records[a].tenant == q.tenant && records[a].lifecycle.subjects * q.subjects != {}
  }

  /** Explicit targets known in the tenant, and the tenant's records of the requested subjects. */
  function Seeds(records: Catalog, q: DeletionRequest): set<ArtifactId> {
    (set a | a in q.artifacts && a in records && records[a].tenant == q.tenant) + SubjectMatches(records, q)
  }

  /** What a request selects, defined by reachability rather than by the loop that computes it. */
  ghost function Selected(records: Catalog, q: DeletionRequest): set<ArtifactId> {
    if q.cascade then set a | a in records && InClosure(records, Seeds(records, q), a)
    else Seeds(records, q)
  }

  /** Selected records whose deletion is still outstanding. */
  ghost function Pending(records: Catalog, q: DeletionRequest): set<ArtifactId> {
    set a | a in Selected(records, q) && a in records && records[a].state != Verified
  }

  function ActionSet(records: Catalog, ids: set<ArtifactId>): set<Action> {
    set a, l | a in ids && a in records && l in records[a].locations :: Action(a, records[a], l)
  }

  ghost function Unheld(records: Catalog, q: DeletionRequest): set<ArtifactId> {
    set a | a in Pending(records, q) && a in records && records[a].lifecycle.holds == {}
  }

  ghost predicate PlanAllowed(p: Policy, records: Catalog, q: DeletionRequest, now: int) {
    && q.scoped
    && TargetsKnown(records, q)
    && Selected(records, q) != {}
    && (q.reason == RetentionExpired ==>
          forall a :: a in Selected(records, q) && a in records ==> records[a].lifecycle.retentionUntil <= now)
    && |ActionSet(records, Unheld(records, q))| <= p.maxActions
  }

  /** The plan that `records` and `q` determine, up to the order of its actions. */
  ghost predicate IsPlan(p: Policy, records: Catalog, q: DeletionRequest, now: int, plan: Plan) {
    && PlanAllowed(p, records, q, now)
    && plan.request == q
    && |plan.actions| == |ActionSet(records, Unheld(records, q))|
    && (forall a :: a in plan.actions <==> a in ActionSet(records, Unheld(records, q)))
    && plan.held == Pending(records, q) - Unheld(records, q)
    && plan.selected == (set a | a in Pending(records, q) && a in records :: records[a])
    && plan.createdAt == now && plan.expiresAt == now + p.planTtl
    && plan.intact
  }

  /******* Executing a deletion *******/

  predicate Strong(a: Action, now: int) {
    && a.location.capability in {HardDelete, CryptoErasure}
    && (a.location.backupUntil.Some? ==> a.location.backupUntil.value <= now)
  }

  predicate ExecutionAdmitted(records: Catalog, plan: Plan, now: int) {
    && plan.intact
    && now < plan.expiresAt
    && plan.request.scoped
    && plan.selected <= records.Values
    && forall i :: 0 <= i < |plan.actions| ==>
         var a := plan.actions[i];
         && a.artifact in records
         && records[a.artifact] == a.expected
         && a.expected.state != Verified
         && a.expected.lifecycle.holds == {}
  }

  function TombstoneFor(plan: Plan, a: ArtifactId): Tombstone {
    (plan.digest, a)
  }

  /** Every planned artifact is marked at once, before any external call. */
  function TombstoneAll(records: Catalog, plan: Plan): Catalog {
    map a | a in records ::
      if a in PlanArtifacts(plan) then Marked(records[a], Tombstoned, TombstoneFor(plan, a)) else records[a]
  }

  datatype Receipt = Receipt(
    artifact: ArtifactId, connector: int, externalRef: int, tombstone: Tombstone, plan: int,
    reference: int, deleted: bool, occurredAt: int)

  datatype Verification = Verification(
    artifact: ArtifactId, connector: int, externalRef: int, tombstone: Tombstone, plan: int,
    receipt: int, verified: bool, verifiedAt: int)

  /** What the connector of one action did; a raised exception returns nothing. */
  datatype Evidence =
    | ConnectorMissing
    | TombstoneRaised
    | Deleted(receipt: Option<Receipt>, verification: Option<Verification>)

  predicate ValidReceipt(a: Action, plan: Plan, now: int, r: Receipt) {
    && r.deleted
    && r.artifact == a.artifact
    && r.connector == a.location.connector
    && r.externalRef == a.location.externalRef
    && r.tombstone == TombstoneFor(plan, a.artifact)
    && r.plan == plan.digest
    && r.occurredAt >= now
  }

  predicate ValidVerification(a: Action, plan: Plan, r: Receipt, v: Verification) {
    && v.verified
    && v.artifact == a.artifact
    && v.connector == a.location.connector
    && v.externalRef == a.location.externalRef
    && v.tombstone == TombstoneFor(plan, a.artifact)
    && v.plan == plan.digest
    && v.receipt == r.reference
    && v.verifiedAt >= r.occurredAt
  }

  /** The copy was tombstoned, deleted and independently verified, with evidence bound to this action. */
  predicate Proven(a: Action, plan: Plan, now: int, e: Evidence) {
    && e.Deleted? && e.receipt.Some? && e.verification.Some?
    && ValidReceipt(a, plan, now, e.receipt.value)
    && ValidVerification(a, plan, e.receipt.value, e.verification.value)
  }

  function FailedArtifacts(plan: Plan, now: int, evidence: seq<Evidence>): set<ArtifactId>
    requires |evidence| == |plan.actions|
  {
    set i | 0 <= i < |evidence| && !Proven(plan.actions[i], plan, now, evidence[i]) :: plan.actions[i].artifact
  }

  function LimitedArtifacts(plan: Plan, now: int, evidence: seq<Evidence>): set<ArtifactId>
    requires |evidence| == |plan.actions|
  {
    set i | 0 <= i < |evidence| && Proven(plan.actions[i], plan, now, evidence[i]) && !Strong(plan.actions[i], now)
      :: plan.actions[i].artifact
  }

  /** The state each planned artifact ends in: any failure fails it, a weak guarantee leaves it tombstoned. */
  function FinaliseAll(records: Catalog, plan: Plan, now: int, evidence: seq<Evidence>): Catalog
    requires |evidence| == |plan.actions|
  {
    var failed := FailedArtifacts(plan, now, evidence);
    var limited := LimitedArtifacts(plan, now, evidence);
    map a | a in records ::
      var r := records[a];
      var t := if r.tombstone.Some? then r.tombstone.value else TombstoneFor(plan, a);
      if a !in PlanArtifacts(plan) then r
      else if a in failed then Marked(r, Failed, t)
      else if a in limited then r
      else Marked(r, Verified, t)
  }

  predicate ExecutionAllows(plan: Plan, now: int, evidence: seq<Evidence>)
    requires |evidence| == |plan.actions|
  {
    FailedArtifacts(plan, now, evidence) == {} && LimitedArtifacts(plan, now, evidence) == {} && plan.held == {}
  }

  /******* Runs, at lock granularity *******/

  /** An execution between its two locked sections: the tombstones are set, the outcome is not recorded. */
  datatype Execution = Execution(plan: Plan, now: int)

  datatype State = State(records: Catalog, running: map<int, Execution>)

  datatype Step =
    | DoRegister(record: Record, intact: bool)
    | DoDerive(derivation: Derivation)
    | DoTombstone(thread: int, plan: Plan, now: int)
    | DoFinalise(thread: int, evidence: seq<Evidence>)

  function Apply(p: Policy, s: State, step: Step): State
    requires p.Valid()
  {
    match step
    case DoRegister(r, intact) => s.(records := Register(p, s.records, r, intact))
    case DoDerive(d) => s.(records := Derive(p, s.records, d))
    case DoTombstone(thread, plan, now) =>
      if thread !in s.running && ExecutionAdmitted(s.records, plan, now) then
        State(TombstoneAll(s.records, plan), s.running[thread := Execution(plan, now)])
      else
        s
    case DoFinalise(thread, evidence) =>
      if thread in s.running && |evidence| == |s.running[thread].plan.actions| then
        State(FinaliseAll(s.records, s.running[thread].plan, s.running[thread].now, evidence), s.running - {thread})
      else
        s
  }

  /** Registered records are instances of the record type, so their validator has accepted them. */
  predicate StepValid(step: Step) {
    step.DoRegister? ==> RecordValid(step.record)
  }

  function Run(p: Policy, s: State, run: seq<Step>): State
    requires p.Valid()
  {
    if run == [] then s else Apply(p, Run(p, s, run[..|run| - 1]), run[|run| - 1])
  }

  const Empty := State(map[], map[])
}
