/** When an artifact counts as verifiably deleted, and when it stays so. */
module LifecycleOutcomes {
  import opened Wrappers
  import opened LifecycleModel
  import opened LifecycleInvariants
  import opened LifecycleDeletion

  /******* Evidence *******/

  /** Each planned artifact is planned at every one of its locations. */
  predicate CoversLocations(plan: Plan) {
    forall i, l :: 0 <= i < |plan.actions| && l in plan.actions[i].expected.locations ==>
      Action(plan.actions[i].artifact, plan.actions[i].expected, l) in plan.actions
  }

  lemma PlansCoverLocations(p: Policy, records: Catalog, q: DeletionRequest, now: int, plan: Plan)
    requires IsPlan(p, records, q, now, plan)
    ensures CoversLocations(plan)
  {
    var actions := ActionSet(records, Unheld(records, q));
    forall i, l | 0 <= i < |plan.actions| && l in plan.actions[i].expected.locations
      ensures Action(plan.actions[i].artifact, plan.actions[i].expected, l) in plan.actions
    {
      assert plan.actions[i] in actions;
      assert Action(plan.actions[i].artifact, plan.actions[i].expected, l) in actions;
    }
  }

  /** The connector reports this copy deleted, for this tombstone of this plan, not before the execution began. */
  predicate ReceiptShows(plan: Plan, now: int, a: ArtifactId, l: Location, r: Receipt) {
    && r.deleted && now <= r.occurredAt
    && r.artifact == a && r.connector == l.connector && r.externalRef == l.externalRef
    && r.tombstone == (plan.digest, a) && r.plan == plan.digest
  }

  /** A verification found this copy gone, for the same tombstone and that very receipt, not before it. */
  predicate VerificationShows(plan: Plan, a: ArtifactId, l: Location, r: Receipt, v: Verification) {
    && v.verified && r.occurredAt <= v.verifiedAt
    && v.artifact == a && v.connector == l.connector && v.externalRef == l.externalRef
    && v.tombstone == (plan.digest, a) && v.plan == plan.digest
    && v.receipt == r.reference
  }

  /** The connector answered with both. */
  predicate ShownDeleted(plan: Plan, now: int, action: Action, e: Evidence) {
    match e
    case Deleted(Some(r), Some(v)) =>
      && ReceiptShows(plan, now, action.artifact, action.location, r)
      && VerificationShows(plan, action.artifact, action.location, r, v)
    case _ => false
  }

  /** What is deleted there is erased, and no backup outlives the execution. */
  predicate ForGood(l: Location, now: int) {
    && (l.capability == HardDelete || l.capability == CryptoErasure)
    && (l.backupUntil == None || l.backupUntil.value <= now)
  }

  /** One action of the plan deleted this copy for good, and the connector showed it. */
  predicate CopyGone(plan: Plan, now: int, evidence: seq<Evidence>, a: ArtifactId, l: Location)
    requires |evidence| == |plan.actions|
  {
    exists i :: 0 <= i < |plan.actions|
      && plan.actions[i].artifact == a && plan.actions[i].location == l
      && ShownDeleted(plan, now, plan.actions[i], evidence[i]) && ForGood(l, now)
  }

  predicate EveryCopyGone(plan: Plan, now: int, evidence: seq<Evidence>, a: ArtifactId, r: Record)
    requires |evidence| == |plan.actions|
  {
    forall l :: l in r.locations ==> CopyGone(plan, now, evidence, a, l)
  }

  /** An execution still works on the record versions its plan names, and misses none of their locations. */
  ghost predicate WorkBound(records: Catalog, x: Execution) {
    && CoversLocations(x.plan)
    && forall i :: 0 <= i < |x.plan.actions| ==>
         && x.plan.actions[i].artifact in records
         && x.plan.actions[i].expected.locations == records[x.plan.actions[i].artifact].locations
  }

  ghost predicate AllWorkBound(s: State) {
    forall t :: t in s.running ==> WorkBound(s.records, s.running[t])
  }

  /** Every executed plan names all locations of what it names, as every plan made by planning does. */
  ghost predicate FullPlans(run: seq<Step>) {
    forall i :: 0 <= i < |run| && run[i].DoTombstone? ==> CoversLocations(run[i].plan)
  }

  lemma SurvivingWorkBound(before: Catalog, after: Catalog, x: Execution)
    requires WorkBound(before, x) && Preserves(before, after)
    ensures WorkBound(after, x)
  {
    forall i | 0 <= i < |x.plan.actions|
      ensures x.plan.actions[i].artifact in after
      ensures x.plan.actions[i].expected.locations == after[x.plan.actions[i].artifact].locations
    {
      assert SameRecord(before[x.plan.actions[i].artifact], after[x.plan.actions[i].artifact]);
    }
  }

  lemma AdmittedWorkBound(records: Catalog, plan: Plan, now: int)
    requires ExecutionAdmitted(records, plan, now) && CoversLocations(plan)
    ensures WorkBound(records, Execution(plan, now))
  {
  }

  /** A step that starts no execution leaves those running bound to their records. */
  lemma OtherStepsKeepWorkBound(p: Policy, s: State, step: Step)
    requires p.Valid() && AllWorkBound(s) && !step.DoTombstone?
    requires Preserves(s.records, Apply(p, s, step).records)
    ensures AllWorkBound(Apply(p, s, step))
  {
    var after := Apply(p, s, step);
    forall t | t in after.running ensures WorkBound(after.records, after.running[t]) {
      assert t in s.running && after.running[t] == s.running[t];
      SurvivingWorkBound(s.records, after.records, s.running[t]);
    }
  }

  lemma TombstoneKeepsWorkBound(p: Policy, s: State, t: int, plan: Plan, now: int)
    requires p.Valid() && AllWorkBound(s) && CoversLocations(plan)
    requires Preserves(s.records, Apply(p, s, DoTombstone(t, plan, now)).records)
    ensures AllWorkBound(Apply(p, s, DoTombstone(t, plan, now)))
  {
    var after := Apply(p, s, DoTombstone(t, plan, now));
    if after != s { AdmittedWorkBound(s.records, plan, now); }
    forall u | u in after.running ensures WorkBound(after.records, after.running[u]) {
      SurvivingWorkBound(s.records, after.records, after.running[u]);
    }
  }

  lemma StepKeepsWorkBound(p: Policy, s: State, step: Step)
    requires p.Valid() && StateOk(p, s) && StepValid(step) && AllWorkBound(s)
    requires step.DoTombstone? ==> CoversLocations(step.plan)
    ensures AllWorkBound(Apply(p, s, step))
  {
    StepKeepsState(p, s, step);
    if step.DoTombstone? {
      TombstoneKeepsWorkBound(p, s, step.thread, step.plan, step.now);
    } else {
      OtherStepsKeepWorkBound(p, s, step);
    }
  }

  /** `a` is verified by this step, on evidence covering every copy of it. */
  ghost predicate VerifiesWithEvidence(s: State, step: Step, a: ArtifactId) {
    && step.DoFinalise? && step.thread in s.running
    && |step.evidence| == |s.running[step.thread].plan.actions|
    && a in s.records
    && EveryCopyGone(s.running[step.thread].plan, s.running[step.thread].now, step.evidence, a, s.records[a])
  }

  lemma AllProvenAndStrong(plan: Plan, now: int, evidence: seq<Evidence>, a: ArtifactId, r: Record, e: Record)
    requires |evidence| == |plan.actions| && CoversLocations(plan)
    requires exists i :: 0 <= i < |plan.actions| && plan.actions[i].artifact == a && plan.actions[i].expected == e
    requires e.locations == r.locations
    requires a !in FailedArtifacts(plan, now, evidence) && a !in LimitedArtifacts(plan, now, evidence)
    ensures EveryCopyGone(plan, now, evidence, a, r)
  {
    forall l | l in r.locations ensures CopyGone(plan, now, evidence, a, l) {
      var i :| 0 <= i < |plan.actions| && plan.actions[i].artifact == a && plan.actions[i].expected == e;
      assert Action(a, e, l) in plan.actions;
      var j :| 0 <= j < |plan.actions| && plan.actions[j] == Action(a, e, l);
      assert plan.actions[j].artifact == a;
    }
  }

  /** A step that makes an artifact VERIFIED finalises an execution that planned it, neither failed nor limited. */
  lemma NewlyVerified(p: Policy, s: State, step: Step, a: ArtifactId)
    requires p.Valid()
    requires a in Apply(p, s, step).records && Apply(p, s, step).records[a].state == Verified
    requires a in s.records ==> s.records[a].state != Verified
    ensures step.DoFinalise? && step.thread in s.running && a in s.records
    ensures var x := s.running[step.thread];
            && |step.evidence| == |x.plan.actions| && a in PlanArtifacts(x.plan)
            && a !in FailedArtifacts(x.plan, x.now, step.evidence) && a !in LimitedArtifacts(x.plan, x.now, step.evidence)
  {
  }

  lemma StepVerifiesWithEvidence(p: Policy, s: State, step: Step, a: ArtifactId)
    requires p.Valid() && StateOk(p, s) && StepValid(step) && AllWorkBound(s)
    requires a in Apply(p, s, step).records && Apply(p, s, step).records[a].state == Verified
    requires a in s.records ==> s.records[a].state != Verified
    ensures VerifiesWithEvidence(s, step, a)
  {
    NewlyVerified(p, s, step, a);
    var x := s.running[step.thread];
    assert WorkBound(s.records, x);
    PlannedActions(x.plan, a);
    var i :| 0 <= i < |x.plan.actions| && x.plan.actions[i].artifact == a;
    AllProvenAndStrong(x.plan, x.now, step.evidence, a, s.records[a], x.plan.actions[i].expected);
  }

  lemma {:induction false} RunKeepsWorkBound(p: Policy, run: seq<Step>)
    requires p.Valid() && RunValid(run) && FullPlans(run)
    ensures AllWorkBound(Run(p, Empty, run))
  {
    if run != [] {
      var before := run[..|run| - 1];
      assert forall i :: 0 <= i < |before| ==> before[i] == run[i];
      ReachableStateOk(p, before);
      RunKeepsWorkBound(p, before);
      StepKeepsWorkBound(p, Run(p, Empty, before), run[|run| - 1]);
    }
  }

  /** Step `k` of the run makes `a` VERIFIED, on evidence covering every copy of it. */
  ghost predicate VerifiesAt(p: Policy, run: seq<Step>, k: nat, a: ArtifactId)
    requires p.Valid() && k < |run|
  {
    VerifiesWithEvidence(Run(p, Empty, run[..k]), run[k], a)
  }

  lemma LastStepVerifies(p: Policy, run: seq<Step>, a: ArtifactId)
    requires p.Valid() && RunValid(run) && FullPlans(run) && run != []
    requires a in Run(p, Empty, run).records && Run(p, Empty, run).records[a].state == Verified
    requires var before := Run(p, Empty, run[..|run| - 1]).records; a in before ==> before[a].state != Verified
    ensures VerifiesAt(p, run, |run| - 1, a)
  {
    var before := run[..|run| - 1];
    assert forall i :: 0 <= i < |before| ==> before[i] == run[i];
    ReachableStateOk(p, before);
    RunKeepsWorkBound(p, before);
    StepVerifiesWithEvidence(p, Run(p, Empty, before), run[|run| - 1], a);
  }

  /**
   An artifact is verified only by a finalising step that saw, for each of its locations, a strong
   deletion with a receipt and a verification bound to that action and tombstone.
   */
  lemma {:induction false} VerifiedOnlyWithEvidence(p: Policy, run: seq<Step>, a: ArtifactId)
    requires p.Valid() && RunValid(run) && FullPlans(run)
    requires a in Run(p, Empty, run).records && Run(p, Empty, run).records[a].state == Verified
    ensures exists k :: 0 <= k < |run| && VerifiesAt(p, run, k, a)
  {
    if run != [] {
      var before := run[..|run| - 1];
      var s := Run(p, Empty, before);
      if a in s.records && s.records[a].state == Verified {
        assert forall i :: 0 <= i < |before| ==> before[i] == run[i];
        VerifiedOnlyWithEvidence(p, before, a);
        var j :| 0 <= j < |before| && VerifiesAt(p, before, j, a);
        assert before[..j] == run[..j];
        assert VerifiesAt(p, run, j, a);
      } else {
        LastStepVerifies(p, run, a);
      }
    }
  }

  /** Some action on the artifact was not shown to have deleted its copy. */
  predicate LacksEvidence(plan: Plan, now: int, evidence: seq<Evidence>, a: ArtifactId)
    requires |evidence| == |plan.actions|
  {
    exists i :: 0 <= i < |plan.actions| && plan.actions[i].artifact == a
      && !ShownDeleted(plan, now, plan.actions[i], evidence[i])
  }

  /** Some action on the artifact leaves its copy recoverable. */
  predicate Recoverable(plan: Plan, now: int, a: ArtifactId) {
    exists i :: 0 <= i < |plan.actions| && plan.actions[i].artifact == a && !ForGood(plan.actions[i].location, now)
  }

  /**
   What an execution records of each artifact it planned: FAILED exactly when evidence is lacking for one of
   its copies; else left as it was when a copy is recoverable; else VERIFIED.
   */
  lemma RecordedOutcome(records: Catalog, plan: Plan, now: int, evidence: seq<Evidence>, a: ArtifactId)
    requires |evidence| == |plan.actions| && a in PlanArtifacts(plan) && a in records
    ensures var before, after := records[a], FinaliseAll(records, plan, now, evidence)[a];
            && after.(state := before.state, version := before.version, tombstone := before.tombstone) == before
            && (after.version != before.version ==>
                  after.tombstone == if before.tombstone == None then Some((plan.digest, a)) else before.tombstone)
            && if LacksEvidence(plan, now, evidence, a) then after.state == Failed && after.version == before.version + 1
               else if Recoverable(plan, now, a) then after == before
               else after.state == DeletionState.Verified && after.version == before.version + 1
  {
    forall i | 0 <= i < |plan.actions|
      ensures Proven(plan.actions[i], plan, now, evidence[i]) <==> ShownDeleted(plan, now, plan.actions[i], evidence[i])
      ensures Strong(plan.actions[i], now) <==> ForGood(plan.actions[i].location, now)
    {
    }
    if LacksEvidence(plan, now, evidence, a) {
      assert a in FailedArtifacts(plan, now, evidence);
    } else if Recoverable(plan, now, a) {
      assert a in LimitedArtifacts(plan, now, evidence);
    }
  }

  /** An execution is allowed exactly when every copy was shown deleted for good and nothing was held. */
  lemma AllowedIffShown(plan: Plan, now: int, evidence: seq<Evidence>)
    requires |evidence| == |plan.actions|
    ensures ExecutionAllows(plan, now, evidence) <==>
            && plan.held == {}
            && forall i :: 0 <= i < |plan.actions| ==>
                 ShownDeleted(plan, now, plan.actions[i], evidence[i]) && ForGood(plan.actions[i].location, now)
  {
    forall i | 0 <= i < |plan.actions|
      ensures Proven(plan.actions[i], plan, now, evidence[i]) <==> ShownDeleted(plan, now, plan.actions[i], evidence[i])
      ensures Strong(plan.actions[i], now) <==> ForGood(plan.actions[i].location, now)
      ensures plan.actions[i].artifact in FailedArtifacts(plan, now, evidence) || Proven(plan.actions[i], plan, now, evidence[i])
      ensures plan.actions[i].artifact in LimitedArtifacts(plan, now, evidence) || Strong(plan.actions[i], now)
              || !Proven(plan.actions[i], plan, now, evidence[i])
    {
    }
  }

  /******* The decision *******/

  ghost predicate AllVerified(records: Catalog, plan: Plan) {
    forall a :: a in PlanArtifacts(plan) ==> a in records && records[a].state == Verified
  }

  /** What an artifact ends as: VERIFIED unless it failed, and, when limited, only if it was VERIFIED before. */
  lemma OutcomeOf(records: Catalog, plan: Plan, now: int, evidence: seq<Evidence>, a: ArtifactId)
    requires |evidence| == |plan.actions| && a in PlanArtifacts(plan) && a in records
    ensures FinaliseAll(records, plan, now, evidence)[a].state == Verified <==>
            && a !in FailedArtifacts(plan, now, evidence)
            && (a in LimitedArtifacts(plan, now, evidence) ==> records[a].state == Verified)
  {
  }

  lemma OnlyPlanned(plan: Plan, now: int, evidence: seq<Evidence>)
    requires |evidence| == |plan.actions|
    ensures FailedArtifacts(plan, now, evidence) <= PlanArtifacts(plan)
    ensures LimitedArtifacts(plan, now, evidence) <= PlanArtifacts(plan)
  {
  }

  ghost predicate PlannedKnown(records: Catalog, plan: Plan) {
    forall a :: a in PlanArtifacts(plan) ==> a in records
  }

  /** Everything ends VERIFIED when nothing fails and whatever is limited was VERIFIED before. */
  lemma AllVerifiedIff(records: Catalog, plan: Plan, now: int, evidence: seq<Evidence>)
    requires |evidence| == |plan.actions| && PlannedKnown(records, plan)
    ensures AllVerified(FinaliseAll(records, plan, now, evidence), plan) <==>
            && FailedArtifacts(plan, now, evidence) == {}
            && forall a :: a in LimitedArtifacts(plan, now, evidence) ==> a in records && records[a].state == Verified
  {
    OnlyPlanned(plan, now, evidence);
    forall a | a in PlanArtifacts(plan)
      ensures FinaliseAll(records, plan, now, evidence)[a].state == Verified <==>
              && a !in FailedArtifacts(plan, now, evidence)
              && (a in LimitedArtifacts(plan, now, evidence) ==> records[a].state == Verified)
    {
      OutcomeOf(records, plan, now, evidence, a);
    }
  }

  /** An allowed execution leaves everything it planned VERIFIED and has held nothing back. */
  lemma AllowedImpliesAllVerified(records: Catalog, plan: Plan, now: int, evidence: seq<Evidence>)
    requires |evidence| == |plan.actions| && PlannedKnown(records, plan)
    ensures ExecutionAllows(plan, now, evidence) ==>
              AllVerified(FinaliseAll(records, plan, now, evidence), plan) && plan.held == {}
  {
    AllVerifiedIff(records, plan, now, evidence);
  }

  /**
   Another execution has already verified all that this one could not prove gone: nothing failed and nothing
   was held, some artifact is limited, and every limited one is VERIFIED in the catalogue.
   */
  ghost predicate Overtaken(records: Catalog, plan: Plan, now: int, evidence: seq<Evidence>)
    requires |evidence| == |plan.actions|
  {
    && FailedArtifacts(plan, now, evidence) == {} && plan.held == {}
    && LimitedArtifacts(plan, now, evidence) != {}
    && forall a :: a in LimitedArtifacts(plan, now, evidence) ==> a in records && records[a].state == Verified
  }

  /** The decision says what happened: allowed exactly when all planned ends VERIFIED and nothing was held. */
  ghost predicate DecisionMatches(records: Catalog, plan: Plan, now: int, evidence: seq<Evidence>)
    requires |evidence| == |plan.actions|
  {
    ExecutionAllows(plan, now, evidence)
    <==> AllVerified(FinaliseAll(records, plan, now, evidence), plan) && plan.held == {}
  }

  /** An execution is allowed exactly when all it planned ends VERIFIED, if and only if it was not overtaken. */
  lemma AllowedIffAllVerified(records: Catalog, plan: Plan, now: int, evidence: seq<Evidence>)
    requires |evidence| == |plan.actions| && PlannedKnown(records, plan)
    ensures DecisionMatches(records, plan, now, evidence) <==> !Overtaken(records, plan, now, evidence)
  {
    AllVerifiedIff(records, plan, now, evidence);
  }

  lemma ExclusiveDecides(s: State, t: int, evidence: seq<Evidence>)
    requires Exclusive(s) && t in s.running && |evidence| == |s.running[t].plan.actions|
    ensures DecisionMatches(s.records, s.running[t].plan, s.running[t].now, evidence)
  {
    var plan, now := s.running[t].plan, s.running[t].now;
    OnlyPlanned(plan, now, evidence);
    forall a | a in LimitedArtifacts(plan, now, evidence) ensures a in s.records && s.records[a].state != Verified {
    }
    AllowedIffAllVerified(s.records, plan, now, evidence);
  }

  /** With executions one at a time the decision always matches. */
  lemma OneAtATimeDecides(p: Policy, run: seq<Step>, t: int, evidence: seq<Evidence>)
    requires p.Valid() && RunValid(run) && OneAtATime(p, run)
    requires var s := Run(p, Empty, run); t in s.running && |evidence| == |s.running[t].plan.actions|
    ensures var s := Run(p, Empty, run);
            DecisionMatches(s.records, s.running[t].plan, s.running[t].now, evidence)
  {
    OneAtATimeIsExclusive(p, run);
    ExclusiveDecides(Run(p, Empty, run), t, evidence);
  }

  /******* Finality *******/

  /** No unfinished execution still works on `a`. */
  ghost predicate Quiet(s: State, a: ArtifactId) {
    forall t :: t in s.running ==> a !in PlanArtifacts(s.running[t].plan)
  }

  ghost predicate Final(s: State, a: ArtifactId) {
    a in s.records && s.records[a].state == Verified && Quiet(s, a)
  }

  lemma AdmittedSkipsVerified(records: Catalog, plan: Plan, now: int, a: ArtifactId)
    requires ExecutionAdmitted(records, plan, now) && a in records && records[a].state == Verified
    ensures a !in PlanArtifacts(plan)
  {
    if a in PlanArtifacts(plan) { PlannedActions(plan, a); }
  }

  lemma StepKeepsFinal(p: Policy, s: State, step: Step, a: ArtifactId)
    requires p.Valid() && Final(s, a)
    ensures Final(Apply(p, s, step), a) && Apply(p, s, step).records[a] == s.records[a]
  {
    if step.DoTombstone? && ExecutionAdmitted(s.records, step.plan, step.now) {
      AdmittedSkipsVerified(s.records, step.plan, step.now, a);
    }
  }

  lemma {:induction false} RunKeepsFinal(p: Policy, s: State, run: seq<Step>, a: ArtifactId)
    requires p.Valid() && Final(s, a)
    ensures Final(Run(p, s, run), a) && Run(p, s, run).records[a] == s.records[a]
  {
    if run != [] {
      RunKeepsFinal(p, s, run[..|run| - 1], a);
      StepKeepsFinal(p, Run(p, s, run[..|run| - 1]), run[|run| - 1], a);
    }
  }

  function NoConnectors(n: nat): (e: seq<Evidence>)
    ensures |e| == n && forall i :: 0 <= i < n ==> e[i] == ConnectorMissing
  {
    seq(n, i => ConnectorMissing)
  }

  /** An execution whose connectors are all missing fails each of its artifacts, whatever state it finds. */
  lemma OverlapUndoesVerified(p: Policy, s: State, t: int, a: ArtifactId)
    requires p.Valid() && a in s.records && t in s.running && a in PlanArtifacts(s.running[t].plan)
    ensures var e := NoConnectors(|s.running[t].plan.actions|);
            var s' := Apply(p, s, DoFinalise(t, e));
            a in s'.records && s'.records[a].state == Failed
  {
    var plan := s.running[t].plan;
    var e := NoConnectors(|plan.actions|);
    PlannedActions(plan, a);
    var i :| 0 <= i < |plan.actions| && plan.actions[i].artifact == a;
    assert !Proven(plan.actions[i], plan, s.running[t].now, e[i]);
    assert a in FailedArtifacts(plan, s.running[t].now, e);
  }

  lemma TwoTombstones(p: Policy, s: State, t: int, u: int, first: Plan, second: Plan, now: int, later: int)
    requires p.Valid() && t != u && t !in s.running && u !in s.running
    requires ExecutionAdmitted(s.records, first, now)
    requires ExecutionAdmitted(TombstoneAll(s.records, first), second, later)
    ensures Apply(p, Apply(p, s, DoTombstone(t, first, now)), DoTombstone(u, second, later))
            == State(TombstoneAll(TombstoneAll(s.records, first), second),
                     s.running[t := Execution(first, now)][u := Execution(second, later)])
  {
  }

  lemma FinaliseVerifies(p: Policy, s: State, t: int, evidence: seq<Evidence>, a: ArtifactId)
    requires p.Valid() && t in s.running && |evidence| == |s.running[t].plan.actions|
    requires a in s.records && a in PlanArtifacts(s.running[t].plan)
    requires a !in FailedArtifacts(s.running[t].plan, s.running[t].now, evidence)
    requires a !in LimitedArtifacts(s.running[t].plan, s.running[t].now, evidence)
    ensures var after := Apply(p, s, DoFinalise(t, evidence));
            && after.running == s.running - {t}
            && a in after.records && after.records[a].state == Verified
  {
  }

  /**
   The race: a second plan made after a first execution has set its tombstones is admitted, the first
   execution verifies the artifact, and the second, whose connectors are missing, records it as failed.
   */
  lemma OverlappingPlansUndoVerified(p: Policy, s: State, t: int, u: int, first: Plan, second: Plan, now: int,
                                     later: int, evidence: seq<Evidence>, a: ArtifactId)
    requires p.Valid() && t != u && t !in s.running && u !in s.running
    requires ExecutionAdmitted(s.records, first, now)
    requires ExecutionAdmitted(TombstoneAll(s.records, first), second, later)
    requires a in s.records && a in PlanArtifacts(first) && a in PlanArtifacts(second)
    requires |evidence| == |first.actions|
    requires a !in FailedArtifacts(first, now, evidence) && a !in LimitedArtifacts(first, now, evidence)
    ensures var s1 := Apply(p, s, DoTombstone(t, first, now));
            var s2 := Apply(p, s1, DoTombstone(u, second, later));
            var s3 := Apply(p, s2, DoFinalise(t, evidence));
            var s4 := Apply(p, s3, DoFinalise(u, NoConnectors(|second.actions|)));
            && a in s3.records && s3.records[a].state == Verified
            && a in s4.records && s4.records[a].state == Failed
  {
    TwoTombstones(p, s, t, u, first, second, now, later);
    var s2 := Apply(p, Apply(p, s, DoTombstone(t, first, now)), DoTombstone(u, second, later));
    FinaliseVerifies(p, s2, t, evidence, a);
    OverlapUndoesVerified(p, Apply(p, s2, DoFinalise(t, evidence)), u, a);
  }

  /**
   A verified artifact stays verified whatever follows, exactly when no unfinished execution still has it
   in its plan.
   */
  lemma VerifiedIsFinalIff(p: Policy, s: State, a: ArtifactId)
    requires p.Valid() && a in s.records && s.records[a].state == Verified
    ensures (forall run :: a in Run(p, s, run).records && Run(p, s, run).records[a].state == Verified) <==> Quiet(s, a)
  {
    if Quiet(s, a) {
      forall run ensures a in Run(p, s, run).records && Run(p, s, run).records[a].state == Verified {
        RunKeepsFinal(p, s, run, a);
      }
    } else {
      var t :| t in s.running && a in PlanArtifacts(s.running[t].plan);
      var step := DoFinalise(t, NoConnectors(|s.running[t].plan.actions|));
      OverlapUndoesVerified(p, s, t, a);
      OneStepRun(p, s, step);
      assert Run(p, s, [step]).records[a].state == Failed;
    }
  }

  lemma OneStepRun(p: Policy, s: State, step: Step)
    requires p.Valid()
    ensures Run(p, s, [step]) == Apply(p, s, step)
  {
    assert [step][..0] == [];
  }

  /** Executions run one at a time: none starts while another is unfinished. */
  ghost predicate OneAtATime(p: Policy, run: seq<Step>)
    requires p.Valid()
  {
    forall i :: 0 <= i < |run| && run[i].DoTombstone? ==> Run(p, Empty, run[..i]).running == map[]
  }

  /** Between the two locked sections an execution's artifacts are tombstoned and nothing more. */
  ghost predicate Exclusive(s: State) {
    && (forall t, u :: t in s.running && u in s.running ==> t == u)
    && (forall t, a :: t in s.running && a in PlanArtifacts(s.running[t].plan) ==>
          a in s.records && s.records[a].state == Tombstoned)
  }

  lemma AddingKeepsExclusive(p: Policy, s: State, step: Step)
    requires p.Valid() && Exclusive(s) && (step.DoRegister? || step.DoDerive?)
    ensures Exclusive(Apply(p, s, step))
  {
    var after := Apply(p, s, step);
    assert after.running == s.running;
    forall a | a in s.records ensures a in after.records && after.records[a] == s.records[a] {
    }
  }

  lemma TombstoneKeepsExclusive(p: Policy, s: State, t: int, plan: Plan, now: int)
    requires p.Valid() && StateOk(p, s) && s.running == map[]
    ensures Exclusive(Apply(p, s, DoTombstone(t, plan, now)))
  {
    if ExecutionAdmitted(s.records, plan, now) { TombstoneKeepsCatalog(p, s.records, plan, now); }
  }

  lemma FinaliseKeepsExclusive(p: Policy, s: State, t: int, evidence: seq<Evidence>)
    requires p.Valid() && Exclusive(s)
    ensures Exclusive(Apply(p, s, DoFinalise(t, evidence)))
  {
    var after := Apply(p, s, DoFinalise(t, evidence));
    if after != s {
      forall u ensures u !in after.running {
      }
    }
  }

  lemma StepKeepsExclusive(p: Policy, s: State, step: Step)
    requires p.Valid() && StateOk(p, s) && StepValid(step) && Exclusive(s)
    requires step.DoTombstone? ==> s.running == map[]
    ensures Exclusive(Apply(p, s, step))
  {
    match step
    case DoRegister(_, _) => AddingKeepsExclusive(p, s, step);
    case DoDerive(_) => AddingKeepsExclusive(p, s, step);
    case DoTombstone(t, plan, now) => TombstoneKeepsExclusive(p, s, t, plan, now);
    case DoFinalise(t, evidence) => FinaliseKeepsExclusive(p, s, t, evidence);
  }

  lemma {:induction false} OneAtATimeIsExclusive(p: Policy, run: seq<Step>)
    requires p.Valid() && RunValid(run) && OneAtATime(p, run)
    ensures Exclusive(Run(p, Empty, run))
  {
    if run != [] {
      var k := |run| - 1;
      var before := run[..k];
      forall i | 0 <= i < |before| ensures before[i] == run[i] && before[..i] == run[..i] {
      }
      ReachableStateOk(p, before);
      OneAtATimeIsExclusive(p, before);
      StepKeepsExclusive(p, Run(p, Empty, before), run[k]);
    }
  }

  /** With executions one at a time, VERIFIED is terminal from the moment it is reached. */
  lemma VerifiedIsTerminal(p: Policy, run: seq<Step>, later: seq<Step>, a: ArtifactId)
    requires p.Valid() && RunValid(run) && OneAtATime(p, run)
    requires a in Run(p, Empty, run).records && Run(p, Empty, run).records[a].state == Verified
    ensures var s := Run(p, Empty, run);
            a in Run(p, s, later).records && Run(p, s, later).records[a] == s.records[a]
  {
    OneAtATimeIsExclusive(p, run);
    RunKeepsFinal(p, Run(p, Empty, run), later, a);
  }
}
