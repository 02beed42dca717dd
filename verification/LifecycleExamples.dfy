/** Smallest runs in which the promises about deletion fail. */
module LifecycleExamples {
  import opened Wrappers
  import opened LifecycleModel
  import opened LifecycleInvariants
  import opened LifecycleDeletion
  import opened LifecycleOutcomes

  function Store(externalRef: int): Location {
    Location(0, externalRef, 1, HardDelete, None)
  }

  function Obligations(): Lifecycle {
    Lifecycle(Public, {1}, {1}, 10, Denied, {}, {})
  }

  /** One original artifact in one store, with no holds. */
  function Note(): Record {
    Record(0, 1, 0, Obligations(), [Store(0)], [], 0, 0, 0, Active, None)
  }

  /** A copy derived from it under the same obligations. */
  function Copy(): Derivation {
    Derivation(1, 0, [Source(0, Note())], Obligations(), [Store(1)], 0, 0)
  }

  function AnyPolicy(): Policy {
    Policy({1}, {1}, map[Public := 100, Internal := 100, Confidential := 100, Restricted := 100], {}, 100, 10, 10, 10, 10)
  }

  function DeleteNote(): DeletionRequest {
    DeletionRequest(0, true, Administrative, {0}, {}, true)
  }

  /** The plan to delete this version of the note at its only location. */
  function PlanFor(r: Record, l: Location, digest: int): Plan {
    Plan(DeleteNote(), [Action(0, r, l)], {}, {r}, 0, 100, digest, true)
  }

  lemma PolicyIsValid()
    ensures AnyPolicy().Valid()
  {
    forall c: Classification ensures c in AnyPolicy().maxRetention {
      match c
      case Public => case Internal => case Confidential => case Restricted =>
    }
  }

  lemma RunAppends(p: Policy, s: State, run: seq<Step>, step: Step)
    requires p.Valid()
    ensures Run(p, s, run + [step]) == Apply(p, Run(p, s, run), step)
  {
    assert (run + [step])[..|run|] == run;
  }

  lemma PlannedNote(r: Record, l: Location, digest: int)
    ensures PlanArtifacts(PlanFor(r, l, digest)) == {0}
  {
    assert PlanFor(r, l, digest).actions[0].artifact == 0;
  }

  lemma NoteIsRegistered()
    ensures AnyPolicy().Valid() && RecordValid(Note())
    ensures Apply(AnyPolicy(), Empty, DoRegister(Note(), true)) == State(map[0 := Note()], map[])
  {
    PolicyIsValid();
    assert AnyPolicy().maxRetention[Public] == 100;
  }

  /******* Overlapping executions *******/

  /** A receipt and a verification for the one action of such a plan. */
  function Proof(plan: Plan, at: int): seq<Evidence> {
    [Deleted(Some(Receipt(0, 0, 0, TombstoneFor(plan, 0), plan.digest, 0, true, at)),
             Some(Verification(0, 0, 0, TombstoneFor(plan, 0), plan.digest, 0, true, at)))]
  }

  lemma ProofSuffices(r: Record, l: Location, digest: int, now: int)
    requires l.connector == 0 && l.externalRef == 0
    ensures var plan := PlanFor(r, l, digest);
            && FailedArtifacts(plan, now, Proof(plan, now)) == {}
            && LimitedArtifacts(plan, now, Proof(plan, now)) == if Strong(plan.actions[0], now) then {} else {0}
  {
    var plan := PlanFor(r, l, digest);
    assert Proven(plan.actions[0], plan, now, Proof(plan, now)[0]);
  }

  lemma NotePlanAdmitted(records: Catalog, r: Record, l: Location, digest: int, now: int)
    requires records == map[0 := r] && r.state != Verified && r.lifecycle.holds == {} && now < 100
    ensures ExecutionAdmitted(records, PlanFor(r, l, digest), now)
  {
    assert records[0] in records.Values;
  }

  /** Register, two tombstone phases, a proven and then a failed outcome, whatever the plans. */
  function Race(r: Record, first: Plan, second: Plan, evidence: seq<Evidence>): seq<Step> {
    [DoRegister(r, true), DoTombstone(0, first, 0), DoTombstone(1, second, 0), DoFinalise(0, evidence)]
  }

  ghost predicate EndsFailed(p: Policy, run: seq<Step>, step: Step)
    requires p.Valid()
  {
    && RunValid(run + [step])
    && var before, after := Run(p, Empty, run).records, Run(p, Empty, run + [step]).records;
       0 in before && 0 in after && before[0].state == Verified && after[0].state == Failed
  }

  lemma RaceEndsFailed(p: Policy, s: State, r: Record, first: Plan, second: Plan, evidence: seq<Evidence>)
    requires p.Valid() && RecordValid(r) && s == Apply(p, Empty, DoRegister(r, true)) && s.running == map[]
    requires 0 in s.records && 0 in PlanArtifacts(first) && 0 in PlanArtifacts(second)
    requires ExecutionAdmitted(s.records, first, 0)
    requires ExecutionAdmitted(TombstoneAll(s.records, first), second, 0)
    requires |evidence| == |first.actions|
    requires 0 !in FailedArtifacts(first, 0, evidence) && 0 !in LimitedArtifacts(first, 0, evidence)
    ensures EndsFailed(p, Race(r, first, second, evidence), DoFinalise(1, NoConnectors(|second.actions|)))
  {
    OverlappingPlansUndoVerified(p, s, 0, 1, first, second, 0, 0, evidence, 0);
    var s2 := Apply(p, s, DoTombstone(0, first, 0));
    var s3 := Apply(p, s2, DoTombstone(1, second, 0));
    var s4 := Apply(p, s3, DoFinalise(0, evidence));
    RunFour(p, DoRegister(r, true), DoTombstone(0, first, 0), DoTombstone(1, second, 0), DoFinalise(0, evidence),
            s, s2, s3, s4);
    RaceIsValid(r, first, second, evidence);
    EndsFailedAfter(p, Race(r, first, second, evidence), DoFinalise(1, NoConnectors(|second.actions|)), s4);
  }

  lemma RaceIsValid(r: Record, first: Plan, second: Plan, evidence: seq<Evidence>)
    requires RecordValid(r)
    ensures RunValid(Race(r, first, second, evidence))
  {
  }

  lemma EndsFailedAfter(p: Policy, run: seq<Step>, step: Step, s: State)
    requires p.Valid() && RunValid(run) && StepValid(step) && Run(p, Empty, run) == s
    requires 0 in s.records && s.records[0].state == Verified
    requires 0 in Apply(p, s, step).records && Apply(p, s, step).records[0].state == Failed
    ensures EndsFailed(p, run, step)
  {
    RunAppends(p, Empty, run, step);
  }

  /** A reachable state in which a verified artifact is recorded as failed one step later. */
  lemma VerifiedCanBecomeFailed()
    ensures exists p: Policy, run, step :: p.Valid() && EndsFailed(p, run, step)
  {
    NoteIsRegistered();
    var first := PlanFor(Note(), Store(0), 1);
    var marked := Marked(Note(), Tombstoned, TombstoneFor(first, 0));
    var second := PlanFor(marked, Store(0), 2);
    PlannedNote(Note(), Store(0), 1);
    PlannedNote(marked, Store(0), 2);
    assert TombstoneAll(map[0 := Note()], first) == map[0 := marked];
    NotePlanAdmitted(map[0 := Note()], Note(), Store(0), 1, 0);
    NotePlanAdmitted(map[0 := marked], marked, Store(0), 2, 0);
    ProofSuffices(Note(), Store(0), 1, 0);
    RaceEndsFailed(AnyPolicy(), State(map[0 := Note()], map[]), Note(), first, second, Proof(first, 0));
  }

  lemma RunFour(p: Policy, a: Step, b: Step, c: Step, d: Step, s1: State, s2: State, s3: State, s4: State)
    requires p.Valid() && s1 == Apply(p, Empty, a) && s2 == Apply(p, s1, b) && s3 == Apply(p, s2, c)
    requires s4 == Apply(p, s3, d)
    ensures Run(p, Empty, [a, b, c, d]) == s4
  {
    RunReaches(p, [], a, Empty, s1);
    assert [] + [a] == [a];
    RunReaches(p, [a], b, s1, s2);
    assert [a] + [b] == [a, b];
    RunReaches(p, [a, b], c, s2, s3);
    assert [a, b] + [c] == [a, b, c];
    RunReaches(p, [a, b, c], d, s3, s4);
    assert [a, b, c] + [d] == [a, b, c, d];
  }

  lemma RunReaches(p: Policy, run: seq<Step>, step: Step, before: State, after: State)
    requires p.Valid() && Run(p, Empty, run) == before && Apply(p, before, step) == after
    ensures Run(p, Empty, run + [step]) == after
  {
    RunAppends(p, Empty, run, step);
  }

  /******* An execution overtaken by another *******/

  /** Everything the execution of thread `t` planned ends VERIFIED and nothing was held, yet it blocks. */
  ghost predicate BlocksThoughVerified(p: Policy, run: seq<Step>, t: int, evidence: seq<Evidence>)
    requires p.Valid()
  {
    var s := Run(p, Empty, run);
    && RunValid(run) && t in s.running && |evidence| == |s.running[t].plan.actions|
    && var plan, now := s.running[t].plan, s.running[t].now;
       && AllVerified(FinaliseAll(s.records, plan, now, evidence), plan) && plan.held == {}
       && !ExecutionAllows(plan, now, evidence)
  }

  lemma OvertakenBlocks(p: Policy, run: seq<Step>, s: State, t: int, evidence: seq<Evidence>)
    requires p.Valid() && RunValid(run) && Run(p, Empty, run) == s && t in s.running
    requires |evidence| == |s.running[t].plan.actions| && PlannedKnown(s.records, s.running[t].plan)
    requires Overtaken(s.records, s.running[t].plan, s.running[t].now, evidence)
    ensures BlocksThoughVerified(p, run, t, evidence)
  {
    AllVerifiedIff(s.records, s.running[t].plan, s.running[t].now, evidence);
  }

  /** A store whose backups last until time 5. */
  function BackedUp(): Location {
    Location(0, 0, 1, HardDelete, Some(5))
  }

  function BackedNote(): Record {
    Note().(locations := [BackedUp()])
  }

  lemma BackedNoteIsRegistered()
    ensures AnyPolicy().Valid() && RecordValid(BackedNote())
    ensures Apply(AnyPolicy(), Empty, DoRegister(BackedNote(), true)) == State(map[0 := BackedNote()], map[])
  {
    PolicyIsValid();
    assert AnyPolicy().maxRetention[Public] == 100;
  }

  /** Two executions reach their tombstones at times 4 and 5, and the later one finishes with a proof. */
  lemma SecondFinishesFirst(p: Policy, s: State, first: Plan, second: Plan, proof: seq<Evidence>) returns (after: State)
    requires p.Valid() && s.running == map[] && 0 in s.records
    requires PlanArtifacts(first) == PlanArtifacts(second) == {0}
    requires ExecutionAdmitted(s.records, first, 4)
    requires ExecutionAdmitted(TombstoneAll(s.records, first), second, 5)
    requires |proof| == |second.actions|
    requires FailedArtifacts(second, 5, proof) == {} && LimitedArtifacts(second, 5, proof) == {}
    ensures after == Apply(p, Apply(p, Apply(p, s, DoTombstone(0, first, 4)), DoTombstone(1, second, 5)),
                           DoFinalise(1, proof))
    ensures 0 in after.running && after.running[0] == Execution(first, 4)
    ensures 0 in after.records && after.records[0].state == Verified && PlannedKnown(after.records, first)
  {
    TwoTombstones(p, s, 0, 1, first, second, 4, 5);
    var middle := Apply(p, Apply(p, s, DoTombstone(0, first, 4)), DoTombstone(1, second, 5));
    FinaliseVerifies(p, middle, 1, proof, 0);
    after := Apply(p, middle, DoFinalise(1, proof));
  }

  function OvertakenSteps(r: Record, first: Plan, second: Plan, proof: seq<Evidence>): seq<Step> {
    [DoRegister(r, true), DoTombstone(0, first, 4), DoTombstone(1, second, 5), DoFinalise(1, proof)]
  }

  lemma OvertakenStepsValid(r: Record, first: Plan, second: Plan, proof: seq<Evidence>)
    requires RecordValid(r)
    ensures RunValid(OvertakenSteps(r, first, second, proof))
  {
  }

  lemma OvertakenReaches(p: Policy, s: State, r: Record, first: Plan, second: Plan, proof: seq<Evidence>, after: State)
    requires p.Valid() && s == Apply(p, Empty, DoRegister(r, true))
    requires after == Apply(p, Apply(p, Apply(p, s, DoTombstone(0, first, 4)), DoTombstone(1, second, 5)),
                            DoFinalise(1, proof))
    ensures Run(p, Empty, OvertakenSteps(r, first, second, proof)) == after
  {
    var s2 := Apply(p, s, DoTombstone(0, first, 4));
    var s3 := Apply(p, s2, DoTombstone(1, second, 5));
    RunFour(p, DoRegister(r, true), DoTombstone(0, first, 4), DoTombstone(1, second, 5), DoFinalise(1, proof),
            s, s2, s3, after);
  }

  lemma OvertakenRun(p: Policy, s: State, r: Record, first: Plan, second: Plan, mine: seq<Evidence>,
                     proof: seq<Evidence>)
    requires p.Valid() && RecordValid(r) && s == Apply(p, Empty, DoRegister(r, true)) && s.running == map[]
    requires 0 in s.records && PlanArtifacts(first) == PlanArtifacts(second) == {0} && first.held == {}
    requires ExecutionAdmitted(s.records, first, 4)
    requires ExecutionAdmitted(TombstoneAll(s.records, first), second, 5)
    requires |proof| == |second.actions| && |mine| == |first.actions|
    requires FailedArtifacts(second, 5, proof) == {} && LimitedArtifacts(second, 5, proof) == {}
    requires FailedArtifacts(first, 4, mine) == {} && LimitedArtifacts(first, 4, mine) == {0}
    ensures exists run :: BlocksThoughVerified(p, run, 0, mine)
  {
    var after := SecondFinishesFirst(p, s, first, second, proof);
    OvertakenReaches(p, s, r, first, second, proof, after);
    OvertakenStepsValid(r, first, second, proof);
    OnlyLimitedOvertaken(after.records, first, 4, mine);
    OvertakenBlocks(p, OvertakenSteps(r, first, second, proof), after, 0, mine);
  }

  lemma OnlyLimitedOvertaken(records: Catalog, plan: Plan, now: int, evidence: seq<Evidence>)
    requires |evidence| == |plan.actions| && plan.held == {} && 0 in records && records[0].state == Verified
    requires FailedArtifacts(plan, now, evidence) == {} && LimitedArtifacts(plan, now, evidence) == {0}
    ensures Overtaken(records, plan, now, evidence)
  {
    assert 0 in LimitedArtifacts(plan, now, evidence);
  }

  /** A reachable state in which an execution blocks although all it planned is VERIFIED. */
  lemma OvertakenExecutionBlocks()
    ensures exists p: Policy, run, t, evidence :: p.Valid() && BlocksThoughVerified(p, run, t, evidence)
  {
    BackedNoteIsRegistered();
    var first := PlanFor(BackedNote(), BackedUp(), 1);
    var marked := Marked(BackedNote(), Tombstoned, TombstoneFor(first, 0));
    var second := PlanFor(marked, BackedUp(), 2);
    PlannedNote(BackedNote(), BackedUp(), 1);
    PlannedNote(marked, BackedUp(), 2);
    assert TombstoneAll(map[0 := BackedNote()], first) == map[0 := marked];
    NotePlanAdmitted(map[0 := BackedNote()], BackedNote(), BackedUp(), 1, 4);
    NotePlanAdmitted(map[0 := marked], marked, BackedUp(), 2, 5);
    ProofSuffices(BackedNote(), BackedUp(), 1, 4);
    ProofSuffices(marked, BackedUp(), 2, 5);
    OvertakenRun(AnyPolicy(), State(map[0 := BackedNote()], map[]), BackedNote(), first, second,
                 Proof(first, 4), Proof(second, 5));
  }

  /******* Derivation between planning and execution *******/

  lemma NoteIsSelected()
    ensures var records := map[0 := Note()];
            && Seeds(records, DeleteNote()) == {0}
            && Selected(records, DeleteNote()) == {0}
            && Pending(records, DeleteNote()) == {0} && Unheld(records, DeleteNote()) == {0}
  {
    var records := map[0 := Note()];
    assert Seeds(records, DeleteNote()) == {0};
    assert InClosure(records, {0}, 0);
    assert Selected(records, DeleteNote()) == {0};
  }

  lemma NoteHasOneAction()
    ensures ActionSet(map[0 := Note()], {0}) == {Action(0, Note(), Store(0))}
  {
    var records := map[0 := Note()];
    forall x: Action ensures x in ActionSet(records, {0}) <==> x == Action(0, Note(), Store(0)) {
      if x == Action(0, Note(), Store(0)) {
        assert Note().locations[0] == Store(0);
        assert 0 in {0} && 0 in records && Store(0) in records[0].locations;
      }
    }
  }

  lemma NotePlanIsPlan(digest: int)
    ensures IsPlan(AnyPolicy(), map[0 := Note()], DeleteNote(), 0, PlanFor(Note(), Store(0), digest))
  {
    NoteIsSelected();
    NoteHasOneAction();
  }

  lemma CopyIsDerived()
    ensures AnyPolicy().Valid() && DeriveOk(AnyPolicy(), map[0 := Note()], Copy())
  {
    PolicyIsValid();
    assert AnyPolicy().maxRetention[Public] == 100;
    assert MaxDepth(Copy().sources) == 0;
    assert |map[0 := Note()]| == 1;
  }

  /** A plan reached by planning after `before`, a derivation, and the plan's own tombstone phase. */
  ghost predicate LeavesActiveCopy(p: Policy, before: seq<Step>, d: Derivation, plan: Plan)
    requires p.Valid()
  {
    && RunValid(before)
    && var planned := Run(p, Empty, before).records;
       && IsPlan(p, planned, plan.request, 0, plan)
       && !Contained(Run(p, Empty, before + [DoDerive(d)] + [DoTombstone(0, plan, 0)]).records,
                     Seeds(planned, plan.request))
  }

  lemma EscapeAfter(p: Policy, before: seq<Step>, s: State, d: Derivation, plan: Plan)
    requires p.Valid() && RunValid(before) && Run(p, Empty, before) == s && s.running == map[]
    requires plan.request.cascade && IsPlan(p, s.records, plan.request, 0, plan)
    requires DeriveOk(p, s.records, d) && d.lifecycle.holds == {} && d.sources != []
    requires d.sources[0].artifact in Seeds(s.records, plan.request)
    requires ExecutionAdmitted(Derive(p, s.records, d), plan, 0)
    ensures LeavesActiveCopy(p, before, d, plan)
  {
    ReachableStateOk(p, before);
    DerivationEscapesPlan(p, s, plan.request, 0, plan, d, 0, 0);
    RunAppends(p, Empty, before, DoDerive(d));
    RunAppends(p, Empty, before + [DoDerive(d)], DoTombstone(0, plan, 0));
  }

  /** A reachable execution of a cascade plan after which a descendant of its target is active and unheld. */
  lemma DeletionCanMissACopy()
    ensures exists p: Policy, before, d, plan :: p.Valid() && LeavesActiveCopy(p, before, d, plan)
  {
    NoteIsRegistered();
    NoteRun();
    NotePlanIsPlan(1);
    NoteIsSelected();
    CopyIsDerived();
    PlanOutlivesCopy();
    EscapeAfter(AnyPolicy(), [DoRegister(Note(), true)], State(map[0 := Note()], map[]), Copy(), PlanFor(Note(), Store(0), 1));
  }

  lemma NoteRun()
    ensures AnyPolicy().Valid()
    ensures Run(AnyPolicy(), Empty, [DoRegister(Note(), true)]) == State(map[0 := Note()], map[])
  {
    var note := DoRegister(Note(), true);
    NoteIsRegistered();
    RunReaches(AnyPolicy(), [], note, Empty, State(map[0 := Note()], map[]));
    assert [] + [note] == [note];
  }

  lemma PlanOutlivesCopy()
    ensures AnyPolicy().Valid()
    ensures ExecutionAdmitted(Derive(AnyPolicy(), map[0 := Note()], Copy()), PlanFor(Note(), Store(0), 1), 0)
  {
    CopyIsDerived();
    var derived := Derive(AnyPolicy(), map[0 := Note()], Copy());
    assert derived[0] == Note() && derived[0] in derived.Values;
  }
}
