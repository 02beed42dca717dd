/** Which records are admitted, used, planned for and executed on, in terms of what the run did before. */
module LifecycleDecisions {
  import opened Wrappers
  import opened LifecycleModel
  import opened LifecycleInvariants
  import opened LifecycleDeletion

  /******* The catalogue as history *******/

  /** The record that a step would enter. */
  function Entering(step: Step): Option<Record> {
    match step
    case DoRegister(r, _) => Some(r)
    case DoDerive(d) =>
      Some(Record(d.id, 1, d.tenant, d.lifecycle, d.locations, d.sources, MaxDepth(d.sources) + 1,
                  d.content, d.createdAt, Active, None))
    case _ => None
  }

  /** Step `k` enters `r`: the id is new before it and known after it. */
  ghost predicate EnteredAt(p: Policy, run: seq<Step>, k: nat, r: Record)
    requires p.Valid() && k < |run|
  {
    && Entering(run[k]) == Some(r)
    && r.id !in Run(p, Empty, run[..k]).records && r.id in Run(p, Empty, run[..k + 1]).records
  }

  /** Step `k` starts an execution that marks `a`. */
  ghost predicate MarkedAt(p: Policy, run: seq<Step>, k: nat, a: ArtifactId)
    requires p.Valid() && k < |run|
  {
    && run[k].DoTombstone? && run[k].thread !in Run(p, Empty, run[..k]).running
    && run[k].thread in Run(p, Empty, run[..k + 1]).running
    && exists i :: 0 <= i < |run[k].plan.actions| && run[k].plan.actions[i].artifact == a
  }

  /** One of the first `n` steps entered `r`, and none of them since marks it for deletion. */
  ghost predicate Usable(p: Policy, run: seq<Step>, n: nat, r: Record)
    requires p.Valid() && n <= |run|
  {
    n > 0 && (EnteredAt(p, run, n - 1, r) || (Usable(p, run, n - 1, r) && !MarkedAt(p, run, n - 1, r.id)))
  }

  predicate ActiveAs(records: Catalog, r: Record) {
    r.id in records && records[r.id] == r && r.state == Active
  }

  ghost predicate ActiveAsAt(p: Policy, run: seq<Step>, n: nat, r: Record)
    requires p.Valid() && n <= |run|
  {
    ActiveAs(Run(p, Empty, run[..n]).records, r)
  }

  lemma RunUnfolds(p: Policy, run: seq<Step>, n: nat)
    requires p.Valid() && n < |run|
    ensures Run(p, Empty, run[..n + 1]) == Apply(p, Run(p, Empty, run[..n]), run[n])
  {
    assert run[..n + 1][..n] == run[..n];
  }

  lemma PrefixValid(run: seq<Step>, n: nat)
    requires RunValid(run) && n <= |run|
    ensures RunValid(run[..n])
  {
    forall i | 0 <= i < n ensures StepValid(run[..n][i]) {
      assert run[..n][i] == run[i];
    }
  }

  ghost predicate StepEnters(p: Policy, s: State, step: Step, r: Record)
    requires p.Valid()
  {
    Entering(step) == Some(r) && r.id !in s.records && r.id in Apply(p, s, step).records
  }

  ghost predicate StepMarks(p: Policy, s: State, step: Step, a: ArtifactId)
    requires p.Valid()
  {
    && step.DoTombstone? && step.thread !in s.running && step.thread in Apply(p, s, step).running
    && exists i :: 0 <= i < |step.plan.actions| && step.plan.actions[i].artifact == a
  }

  lemma RegisterActive(p: Policy, s: State, r: Record, x: Record, intact: bool)
    requires p.Valid()
    ensures ActiveAs(Register(p, s.records, x, intact), r) <==>
            ActiveAs(s.records, r) || StepEnters(p, s, DoRegister(x, intact), r)
    ensures StepEnters(p, s, DoRegister(x, intact), r) ==> r.state == Active
  {
  }

  lemma DeriveActive(p: Policy, s: State, r: Record, d: Derivation)
    requires p.Valid()
    ensures ActiveAs(Derive(p, s.records, d), r) <==> ActiveAs(s.records, r) || StepEnters(p, s, DoDerive(d), r)
  {
  }

  lemma TombstoneActive(p: Policy, s: State, r: Record, t: int, plan: Plan, now: int)
    requires p.Valid()
    ensures var after := Apply(p, s, DoTombstone(t, plan, now));
            ActiveAs(after.records, r) <==>
              ActiveAs(s.records, r) && !StepMarks(p, s, DoTombstone(t, plan, now), r.id)
  {
  }

  /** Finalising changes only what its execution had marked. */
  lemma FinaliseActive(p: Policy, s: State, r: Record, t: int, evidence: seq<Evidence>)
    requires p.Valid() && StateOk(p, s)
    ensures ActiveAs(Apply(p, s, DoFinalise(t, evidence)).records, r) <==> ActiveAs(s.records, r)
  {
    if t in s.running && |evidence| == |s.running[t].plan.actions| {
      FinaliseKeepsCatalog(p, s, t, evidence);
      if r.id in s.records && r.id in PlanArtifacts(s.running[t].plan) { assert s.records[r.id].state != Active; }
    }
  }

  lemma StepActive(p: Policy, s: State, step: Step, r: Record)
    requires p.Valid() && StateOk(p, s)
    ensures ActiveAs(Apply(p, s, step).records, r) <==>
            StepEnters(p, s, step, r) || (ActiveAs(s.records, r) && !StepMarks(p, s, step, r.id))
  {
    match step
    case DoRegister(x, intact) => RegisterActive(p, s, r, x, intact);
    case DoDerive(d) => DeriveActive(p, s, r, d);
    case DoTombstone(t, plan, now) => TombstoneActive(p, s, r, t, plan, now);
    case DoFinalise(t, evidence) => FinaliseActive(p, s, r, t, evidence);
  }

  lemma ActiveOneMore(p: Policy, run: seq<Step>, n: nat, r: Record)
    requires p.Valid() && RunValid(run) && n < |run|
    ensures ActiveAsAt(p, run, n + 1, r) <==>
            EnteredAt(p, run, n, r) || (ActiveAsAt(p, run, n, r) && !MarkedAt(p, run, n, r.id))
  {
    PrefixValid(run, n);
    ReachableStateOk(p, run[..n]);
    RunUnfolds(p, run, n);
    StepActive(p, Run(p, Empty, run[..n]), run[n], r);
  }

  /** The active records are those some step entered and no execution has marked since. */
  lemma {:induction false} ActiveIffUsable(p: Policy, run: seq<Step>, n: nat, r: Record)
    requires p.Valid() && RunValid(run) && n <= |run|
    ensures ActiveAsAt(p, run, n, r) <==> Usable(p, run, n, r)
  {
    if n > 0 {
      ActiveIffUsable(p, run, n - 1, r);
      ActiveOneMore(p, run, n - 1, r);
    }
  }

  /******* Entering the catalogue *******/

  /** Within the purposes, residencies, retention and training classes of the policy. */
  predicate Permitted(p: Policy, l: Lifecycle, createdAt: int)
    requires p.Valid()
  {
    && l.purposes <= p.purposes && l.residencies <= p.residencies
    && l.retentionUntil <= createdAt + p.maxRetention[l.classification]
    && (l.consent != Granted || l.classification in p.trainable)
  }

  lemma PermittedMeansOk(p: Policy, r: Record)
    requires p.Valid()
    ensures RecordOk(p, r) <==> r.state == Active && Permitted(p, r.lifecycle, r.createdAt)
  {
  }

  /** A registration enters its record exactly when it is intact, an active original under a new id, within policy. */
  lemma RegisteredIff(p: Policy, run: seq<Step>, k: nat, r: Record)
    requires p.Valid() && k < |run| && run[k].DoRegister?
    ensures EnteredAt(p, run, k, r) <==>
            && run[k].record == r && run[k].intact
            && r.state == Active && r.sources == []
            && Permitted(p, r.lifecycle, r.createdAt)
            && var records := Run(p, Empty, run[..k]).records; r.id !in records && |records| < p.maxArtifacts
  {
    RunUnfolds(p, run, k);
    PermittedMeansOk(p, r);
  }

  /** `x` keeps every restriction of `y`, spelled out. */
  predicate Keeps(x: Lifecycle, y: Lifecycle) {
    && (match y.classification
        case Public => true
        case Internal => x.classification != Public
        case Confidential => x.classification == Confidential || x.classification == Restricted
        case Restricted => x.classification == Restricted)
    && (match y.consent
        case Granted => true
        case Denied => x.consent != Granted
        case NotApplicable => x.consent != Granted
        case Withdrawn => x.consent == Withdrawn)
    && x.purposes <= y.purposes && x.residencies <= y.residencies
    && y.holds <= x.holds && y.subjects <= x.subjects
    && x.retentionUntil <= y.retentionUntil
  }

  lemma KeepsMeansStrict(x: Lifecycle, y: Lifecycle)
    ensures AtLeastAsStrict(x, y) <==> Keeps(x, y)
  {
  }

  /** The derived artifact is well formed: copies in distinct places it may reside in, distinct sources, and time left. */
  predicate WellFormed(d: Derivation) {
    && d.lifecycle.purposes != {} && d.lifecycle.residencies != {} && d.createdAt < d.lifecycle.retentionUntil
    && d.locations != [] && d.sources != []
    && (forall i :: 0 <= i < |d.locations| ==> d.locations[i].residency in d.lifecycle.residencies)
    && (forall i, j :: 0 <= i < |d.locations| && 0 <= j < |d.locations| && i != j ==>
          d.locations[i].connector != d.locations[j].connector || d.locations[i].externalRef != d.locations[j].externalRef)
    && (forall i, j :: 0 <= i < |d.sources| && 0 <= j < |d.sources| && i != j ==>
          d.sources[i].artifact != d.sources[j].artifact)
    && (forall i :: 0 <= i < |d.sources| ==> d.sources[i].artifact != d.id)
  }

  /** A source names a record of the run that no execution has marked, of the same tenant, whose restrictions are kept. */
  ghost predicate SourceUsable(p: Policy, run: seq<Step>, n: nat, d: Derivation, source: Source)
    requires p.Valid() && n <= |run|
  {
    && source.version.id == source.artifact && Usable(p, run, n, source.version)
    && source.version.tenant == d.tenant
    && source.version.depth < p.maxDepth
    && Keeps(d.lifecycle, source.version.lifecycle)
  }

  lemma {:induction false} MaxDepthLess(sources: seq<Source>, bound: nat)
    requires sources != []
    ensures MaxDepth(sources) < bound <==> forall i :: 0 <= i < |sources| ==> sources[i].version.depth < bound
  {
    if |sources| > 1 {
      MaxDepthLess(sources[1..], bound);
      assert forall i :: 0 <= i < |sources[1..]| ==> sources[1..][i] == sources[i + 1];
      assert forall i :: 1 <= i < |sources| ==> sources[i] == sources[1..][i - 1];
    }
  }

  lemma SourceOkIff(p: Policy, run: seq<Step>, k: nat, d: Derivation, i: nat)
    requires p.Valid() && RunValid(run) && k <= |run| && i < |d.sources|
    ensures var source := d.sources[i];
            SourceOk(Run(p, Empty, run[..k]).records, d, source) <==>
              && source.version.id == source.artifact && Usable(p, run, k, source.version)
              && source.version.tenant == d.tenant
  {
    ActiveIffUsable(p, run, k, d.sources[i].version);
    PrefixValid(run, k);
    ReachableStateOk(p, run[..k]);
    var records := Run(p, Empty, run[..k]).records;
    if d.sources[i].artifact in records { assert RecordKept(p, d.sources[i].artifact, records[d.sources[i].artifact]); }
  }

  /** The derivation is well formed, within policy, of a new id, and from sources it may be derived from. */
  ghost predicate Derivable(p: Policy, run: seq<Step>, k: nat, d: Derivation)
    requires p.Valid() && k <= |run|
  {
    var records := Run(p, Empty, run[..k]).records;
    && d.id !in records && |records| < p.maxArtifacts && |d.sources| <= p.maxSources
    && WellFormed(d) && Permitted(p, d.lifecycle, d.createdAt)
    && forall i :: 0 <= i < |d.sources| ==> SourceUsable(p, run, k, d, d.sources[i])
  }

  lemma SourcesUsableIff(p: Policy, run: seq<Step>, k: nat, d: Derivation)
    requires p.Valid() && RunValid(run) && k <= |run|
    ensures (forall i :: 0 <= i < |d.sources| ==> SourceUsable(p, run, k, d, d.sources[i])) <==>
            forall i :: 0 <= i < |d.sources| ==>
              && SourceOk(Run(p, Empty, run[..k]).records, d, d.sources[i]) && d.sources[i].version.depth < p.maxDepth
              && AtLeastAsStrict(d.lifecycle, d.sources[i].version.lifecycle)
  {
    forall i | 0 <= i < |d.sources|
      ensures SourceUsable(p, run, k, d, d.sources[i]) <==>
              && SourceOk(Run(p, Empty, run[..k]).records, d, d.sources[i]) && d.sources[i].version.depth < p.maxDepth
              && AtLeastAsStrict(d.lifecycle, d.sources[i].version.lifecycle)
    {
      SourceOkIff(p, run, k, d, i);
      KeepsMeansStrict(d.lifecycle, d.sources[i].version.lifecycle);
    }
  }

  lemma DeriveOkMeans(p: Policy, records: Catalog, d: Derivation)
    requires p.Valid()
    ensures DeriveOk(p, records, d) <==>
            && d.id !in records && |records| < p.maxArtifacts && |d.sources| <= p.maxSources
            && WellFormed(d) && Permitted(p, d.lifecycle, d.createdAt)
            && forall i :: 0 <= i < |d.sources| ==>
                 && SourceOk(records, d, d.sources[i]) && d.sources[i].version.depth < p.maxDepth
                 && AtLeastAsStrict(d.lifecycle, d.sources[i].version.lifecycle)
  {
    if d.sources != [] { MaxDepthLess(d.sources, p.maxDepth); }
    DerivedRecordValid(d);
    PermittedMeansOk(p, DerivedRecord(d));
  }

  /**
   A derivation enters a record exactly when it is well formed and within policy, its id is new and there is
   room, and every one of its sources may be derived from.
   */
  lemma DerivedIff(p: Policy, run: seq<Step>, k: nat)
    requires p.Valid() && RunValid(run) && k < |run| && run[k].DoDerive?
    ensures (exists r :: EnteredAt(p, run, k, r)) <==> Derivable(p, run, k, run[k].derivation)
  {
    var d := run[k].derivation;
    RunUnfolds(p, run, k);
    SourcesUsableIff(p, run, k, d);
    DeriveOkMeans(p, Run(p, Empty, run[..k]).records, d);
    assert Entering(run[k]) == Some(DerivedRecord(d));
    if Derivable(p, run, k, d) { assert EnteredAt(p, run, k, DerivedRecord(d)); }
  }

  lemma DerivedRecordValid(d: Derivation)
    ensures RecordValid(DerivedRecord(d)) <==> WellFormed(d)
  {
    var r := DerivedRecord(d);
    if WellFormed(d) {
      forall i, j | 0 <= i < j < |r.locations|
        ensures (r.locations[i].connector, r.locations[i].externalRef) != (r.locations[j].connector, r.locations[j].externalRef)
      {
        assert d.locations[i].connector != d.locations[j].connector || d.locations[i].externalRef != d.locations[j].externalRef;
      }
    }
    if RecordValid(r) {
      forall i, j | 0 <= i < |d.locations| && 0 <= j < |d.locations| && i != j
        ensures d.locations[i].connector != d.locations[j].connector || d.locations[i].externalRef != d.locations[j].externalRef
      {
        var x, y := if i < j then i else j, if i < j then j else i;
        assert (r.locations[x].connector, r.locations[x].externalRef) != (r.locations[y].connector, r.locations[y].externalRef);
      }
    }
  }

  /******* Use *******/

  /**
   A use is authorised exactly when it names, for its tenant, the version in which some step entered the
   artifact, no execution has marked it since, and purpose, residency, time and training are within both the
   record and the policy.
   */
  lemma UseIff(p: Policy, run: seq<Step>, u: Use, now: int)
    requires p.Valid() && RunValid(run)
    ensures UseOk(p, Run(p, Empty, run).records, u, now) <==>
            var r := u.expected;
            && r.id == u.artifact && Usable(p, run, |run|, r) && r.tenant == u.tenant
            && u.purpose in r.lifecycle.purposes && u.purpose in p.purposes
            && u.residency in r.lifecycle.residencies && u.residency in p.residencies
            && now < r.lifecycle.retentionUntil
            && (u.requestedRetention == None || u.requestedRetention.value <= r.lifecycle.retentionUntil)
            && (u.training ==> r.lifecycle.consent == Granted && r.lifecycle.classification in p.trainable)
  {
    assert run[..|run|] == run;
    ActiveIffUsable(p, run, |run|, u.expected);
    ReachableStateOk(p, run);
    var records := Run(p, Empty, run).records;
    if u.artifact in records { assert RecordKept(p, u.artifact, records[u.artifact]); }
  }

  /******* Planning *******/

  /** The request names the artifact, or one of its subjects, in its own tenant. */
  predicate Named(records: Catalog, q: DeletionRequest, a: ArtifactId) {
    && a in records && records[a].tenant == q.tenant
    && (a in q.artifacts || records[a].lifecycle.subjects * q.subjects != {})
  }

  /** The request reaches the artifact: it is named or, for a cascade, descends from one that is. */
  ghost predicate Reached(records: Catalog, q: DeletionRequest, a: ArtifactId) {
    a in records && (Named(records, q, a) || (q.cascade && exists s :: Named(records, q, s) && Descends(records, a, s)))
  }

  /** Deletion of a reached artifact is outstanding. */
  ghost predicate Outstanding(records: Catalog, q: DeletionRequest, a: ArtifactId) {
    Reached(records, q, a) && records[a].state != DeletionState.Verified
  }

  /** A copy that the plan must delete: of an outstanding artifact that carries no hold. */
  ghost predicate CopyDue(records: Catalog, q: DeletionRequest, x: Action) {
    && Outstanding(records, q, x.artifact) && records[x.artifact].lifecycle.holds == {}
    && x.expected == records[x.artifact] && x.location in records[x.artifact].locations
  }

  lemma SelectedIffReached(records: Catalog, q: DeletionRequest, a: ArtifactId)
    requires TargetsKnown(records, q)
    ensures a in Selected(records, q) <==> Reached(records, q, a)
  {
    forall s ensures s in Seeds(records, q) <==> Named(records, q, s) {
    }
  }

  lemma DueIffInActions(records: Catalog, q: DeletionRequest, x: Action)
    requires TargetsKnown(records, q)
    ensures x in ActionSet(records, Unheld(records, q)) <==> CopyDue(records, q, x)
  {
    SelectedIffReached(records, q, x.artifact);
  }

  /** A finite set that holds exactly the copies due, however it is come by. */
  ghost predicate CopiesDue(records: Catalog, q: DeletionRequest, copies: set<Action>) {
    forall x :: x in copies <==> CopyDue(records, q, x)
  }

  lemma CopiesAreActions(records: Catalog, q: DeletionRequest, copies: set<Action>)
    requires TargetsKnown(records, q) && CopiesDue(records, q, copies)
    ensures copies == ActionSet(records, Unheld(records, q))
  {
    forall x ensures x in copies <==> x in ActionSet(records, Unheld(records, q)) {
      DueIffInActions(records, q, x);
    }
  }

  /**
   Planning is allowed exactly when the request is in scope, every artifact it lists is one of its tenant, it
   reaches something, all it reaches has expired if that is its reason, and the copies due are not too many.
   */
  lemma PlanAllowedIff(p: Policy, records: Catalog, q: DeletionRequest, now: int, copies: set<Action>)
    requires CopiesDue(records, q, copies)
    ensures PlanAllowed(p, records, q, now) <==>
            && q.scoped
            && (forall a :: a in q.artifacts ==> a in records && records[a].tenant == q.tenant)
            && (exists a :: Reached(records, q, a))
            && (q.reason == RetentionExpired ==>
                  forall a :: Reached(records, q, a) ==> records[a].lifecycle.retentionUntil <= now)
            && |copies| <= p.maxActions
  {
    if TargetsKnown(records, q) {
      CopiesAreActions(records, q, copies);
      forall a ensures a in Selected(records, q) <==> Reached(records, q, a) { SelectedIffReached(records, q, a); }
      if Selected(records, q) != {} {
        var a := SomeElement(Selected(records, q));
        assert Reached(records, q, a);
      }
    }
  }

  /** A plan deletes exactly the copies due, each once, and sets aside what is held, for a limited time from its making. */
  lemma PlanDeletesCopiesDue(p: Policy, records: Catalog, q: DeletionRequest, now: int, plan: Plan)
    requires IsPlan(p, records, q, now, plan)
    ensures (forall x :: x in plan.actions <==> CopyDue(records, q, x)) && Distinct(plan.actions)
    ensures forall a :: a in plan.held <==> Outstanding(records, q, a) && records[a].lifecycle.holds != {}
    ensures forall r :: r in plan.selected <==> exists a :: Outstanding(records, q, a) && records[a] == r
    ensures plan.request == q && plan.intact && plan.createdAt == now && plan.expiresAt == now + p.planTtl
  {
    forall x ensures x in plan.actions <==> CopyDue(records, q, x) { DueIffInActions(records, q, x); }
    DistinctByCount(plan.actions, ActionSet(records, Unheld(records, q)));
    forall a ensures a in Pending(records, q) <==> Outstanding(records, q, a) { SelectedIffReached(records, q, a); }
    forall r ensures r in plan.selected <==> exists a :: Outstanding(records, q, a) && records[a] == r {
    }
  }

  /******* Starting an execution *******/

  /**
   An execution starts exactly when its thread is free, the plan is intact, in scope and unexpired, every version
   the plan looked at is still in the catalogue, and each action is on the version planned, unheld and not VERIFIED.
   */
  lemma StartedIff(p: Policy, s: State, t: int, plan: Plan, now: int)
    requires p.Valid() && StateOk(p, s)
    ensures t !in s.running && t in Apply(p, s, DoTombstone(t, plan, now)).running <==>
            && t !in s.running
            && plan.intact && plan.request.scoped && now < plan.expiresAt
            && (forall r :: r in plan.selected ==> r.id in s.records && s.records[r.id] == r)
            && forall x :: x in plan.actions ==>
                 && x.artifact in s.records && s.records[x.artifact] == x.expected
                 && x.expected.state != DeletionState.Verified && x.expected.lifecycle.holds == {}
  {
    forall r ensures r in s.records.Values <==> r.id in s.records && s.records[r.id] == r {
      if r in s.records.Values {
        var a := SomeKey(s.records, r);
        assert RecordKept(p, a, s.records[a]);
      }
    }
  }

  /** Starting an execution marks every planned artifact with the plan's tombstone and touches nothing else. */
  lemma StartingMarks(p: Policy, s: State, t: int, plan: Plan, now: int, a: ArtifactId)
    requires p.Valid() && a in s.records && t !in s.running
    requires t in Apply(p, s, DoTombstone(t, plan, now)).running
    ensures var before, after := s.records[a], Apply(p, s, DoTombstone(t, plan, now)).records;
            && after.Keys == s.records.Keys
            && after[a] == if exists i :: 0 <= i < |plan.actions| && plan.actions[i].artifact == a
                           then before.(version := before.version + 1, state := Tombstoned, tombstone := Some((plan.digest, a)))
                           else before
  {
  }
}
