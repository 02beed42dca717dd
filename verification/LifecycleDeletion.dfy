/** What planning selects, what an executed plan leaves active, and when an artifact counts as deleted. */
module LifecycleDeletion {
  import opened Wrappers
  import opened LifecycleModel
  import opened LifecycleInvariants

  /******* Reachability *******/

  /** Nothing outside `selected` has a direct source inside it. */
  ghost predicate ClosedUnderChildren(records: Catalog, selected: set<ArtifactId>) {
    forall x, y :: Parent(records, x, y) && y in selected ==> x in selected
  }

  /** A set closed under direct children that holds the end of a chain holds its start. */
  lemma {:induction false} ClosedHoldsChain(records: Catalog, selected: set<ArtifactId>, path: seq<ArtifactId>,
                                            x: ArtifactId, y: ArtifactId)
    requires ClosedUnderChildren(records, selected) && LineagePath(records, path, x, y) && y in selected
    ensures x in selected
    decreases |path|
  {
    assert Parent(records, path[0], path[1]);
    if |path| > 2 {
      var rest := path[1..];
      forall i | 0 <= i < |rest| - 1 ensures Parent(records, rest[i], rest[i + 1]) {
        assert Parent(records, path[i + 1], path[i + 2]);
      }
      ClosedHoldsChain(records, selected, rest, path[1], y);
    }
  }

  lemma ClosedHoldsClosure(records: Catalog, seeds: set<ArtifactId>, selected: set<ArtifactId>, x: ArtifactId)
    requires ClosedUnderChildren(records, selected) && seeds <= selected && InClosure(records, seeds, x)
    ensures x in selected
  {
    if x !in seeds {
      var s :| s in seeds && Descends(records, x, s);
      var path :| LineagePath(records, path, x, s);
      ClosedHoldsChain(records, selected, path, x, s);
    }
  }

  lemma ChildDescends(records: Catalog, x: ArtifactId, y: ArtifactId)
    requires Parent(records, x, y)
    ensures Descends(records, x, y)
  {
    assert LineagePath(records, [x, y], x, y);
  }

  lemma ChildOfDescendant(records: Catalog, x: ArtifactId, y: ArtifactId, z: ArtifactId)
    requires Parent(records, x, y) && Descends(records, y, z)
    ensures Descends(records, x, z)
  {
    var path :| LineagePath(records, path, y, z);
    var longer := [x] + path;
    forall i | 0 <= i < |longer| - 1 ensures Parent(records, longer[i], longer[i + 1]) {
      if i > 0 { assert Parent(records, path[i - 1], path[i]); }
    }
    assert LineagePath(records, longer, x, z);
  }

  /** A direct child of something in the closure is in the closure. */
  lemma ChildInClosure(records: Catalog, seeds: set<ArtifactId>, x: ArtifactId, y: ArtifactId)
    requires Parent(records, x, y) && InClosure(records, seeds, y)
    ensures InClosure(records, seeds, x)
  {
    if y in seeds {
      ChildDescends(records, x, y);
    } else {
      var s :| s in seeds && Descends(records, y, s);
      ChildOfDescendant(records, x, y, s);
    }
  }

  /******* What a request selects *******/

  lemma SeedsKnown(records: Catalog, q: DeletionRequest, a: ArtifactId)
    requires a in Seeds(records, q)
    ensures a in records && records[a].tenant == q.tenant
  {
  }

  /** Lineage never crosses tenants, so a cascade stays in the requesting tenant without any filter. */
  lemma CascadeStaysInTenant(p: Policy, records: Catalog, q: DeletionRequest, a: ArtifactId)
    requires p.Valid() && CatalogOk(p, records) && InClosure(records, Seeds(records, q), a)
    ensures a in records && records[a].tenant == q.tenant
  {
    if a in Seeds(records, q) {
      SeedsKnown(records, q, a);
    } else {
      var s :| s in Seeds(records, q) && Descends(records, a, s);
      SeedsKnown(records, q, s);
      AncestorsBound(p, records, a, s);
    }
  }

  /** A descendant inherits every data subject, so a subject request without cascade still misses none. */
  lemma SubjectRequestNeedsNoCascade(p: Policy, records: Catalog, q: DeletionRequest)
    requires p.Valid() && CatalogOk(p, records) && q.artifacts == {}
    ensures Selected(records, q.(cascade := true)) == Selected(records, q.(cascade := false))
  {
    var seeds := Seeds(records, q);
    assert Seeds(records, q.(cascade := true)) == seeds && Seeds(records, q.(cascade := false)) == seeds;
    forall a | a in records && InClosure(records, seeds, a) ensures a in seeds {
      if a !in seeds {
        var s :| s in seeds && Descends(records, a, s);
        AncestorsBound(p, records, a, s);
      }
    }
  }

  /******* Containment *******/

  /** Every active artifact that is one of the targets, or descends from one, carries a legal hold. */
  ghost predicate Contained(records: Catalog, targets: set<ArtifactId>) {
    forall a :: a in records && InClosure(records, targets, a) && records[a].state == Active ==>
      records[a].lifecycle.holds != {}
  }

  lemma ParentsPreserved(before: Catalog, after: Catalog, x: ArtifactId, y: ArtifactId)
    requires Preserves(before, after) && x in before
    ensures Parent(after, x, y) <==> Parent(before, x, y)
  {
    assert after[x].sources == before[x].sources;
  }

  /** Chains starting at an old record run through old records only, so they are the same chains as before. */
  lemma {:induction false} PathPreserved(p: Policy, before: Catalog, after: Catalog, path: seq<ArtifactId>,
                                         x: ArtifactId, y: ArtifactId)
    requires p.Valid() && CatalogOk(p, before) && Preserves(before, after) && x in before
    ensures LineagePath(after, path, x, y) <==> LineagePath(before, path, x, y)
    decreases |path|
  {
    if |path| >= 2 && path[0] == x {
      ParentsPreserved(before, after, x, path[1]);
      if Parent(before, x, path[1]) {
        assert SourceKept(before, before[x], path[1]);
        if |path| > 2 {
          PathPreserved(p, before, after, path[1..], path[1], y);
          PathTail(before, path, x, y);
          PathTail(after, path, x, y);
        }
      }
    }
  }

  lemma PathTail(records: Catalog, path: seq<ArtifactId>, x: ArtifactId, y: ArtifactId)
    requires |path| > 2 && path[0] == x
    ensures LineagePath(records, path, x, y) <==>
            Parent(records, x, path[1]) && LineagePath(records, path[1..], path[1], y)
  {
    var rest := path[1..];
    if LineagePath(records, path, x, y) {
      forall i | 0 <= i < |rest| - 1 ensures Parent(records, rest[i], rest[i + 1]) {
        assert Parent(records, path[i + 1], path[i + 2]);
      }
    }
    if Parent(records, x, path[1]) && LineagePath(records, rest, path[1], y) {
      forall i | 0 <= i < |path| - 1 ensures Parent(records, path[i], path[i + 1]) {
        if i > 0 { assert Parent(records, rest[i - 1], rest[i]); }
      }
    }
  }

  lemma ClosurePreserved(p: Policy, before: Catalog, after: Catalog, targets: set<ArtifactId>, a: ArtifactId)
    requires p.Valid() && CatalogOk(p, before) && Preserves(before, after) && a in before
    ensures InClosure(after, targets, a) <==> InClosure(before, targets, a)
  {
    forall s | s in targets ensures Descends(after, a, s) <==> Descends(before, a, s) {
      forall path ensures LineagePath(after, path, a, s) <==> LineagePath(before, path, a, s) {
        PathPreserved(p, before, after, path, a, s);
      }
    }
  }

  /** A newly derived record of the closure has an active source in the closure. */
  lemma ClosureEntersThroughSource(p: Policy, records: Catalog, targets: set<ArtifactId>, a: ArtifactId)
    requires p.Valid() && CatalogOk(p, records) && a !in targets && InClosure(records, targets, a)
    ensures a in records
    ensures exists i :: 0 <= i < |records[a].sources| && InClosure(records, targets, records[a].sources[i].artifact)
  {
    var s :| s in targets && Descends(records, a, s);
    var path :| LineagePath(records, path, a, s);
    assert Parent(records, path[0], path[1]);
    if |path| == 2 {
      assert path[1] in targets;
    } else {
      PathTail(records, path, a, s);
      assert Descends(records, path[1], s);
    }
    var i :| 0 <= i < |records[a].sources| && records[a].sources[i].artifact == path[1];
    assert InClosure(records, targets, records[a].sources[i].artifact);
  }

  /** Once the targets are contained, deriving from them only yields held records. */
  lemma DeriveKeepsContained(p: Policy, records: Catalog, d: Derivation, targets: set<ArtifactId>)
    requires p.Valid() && CatalogOk(p, records) && targets <= records.Keys && Contained(records, targets)
    ensures Contained(Derive(p, records, d), targets)
  {
    DeriveKeepsCatalog(p, records, d);
    var after := Derive(p, records, d);
    forall a | a in after && InClosure(after, targets, a) && after[a].state == Active
      ensures after[a].lifecycle.holds != {}
    {
      if a in records {
        ClosurePreserved(p, records, after, targets, a);
      } else {
        ClosureEntersThroughSource(p, after, targets, a);
        var i :| 0 <= i < |d.sources| && InClosure(after, targets, d.sources[i].artifact);
        assert SourceOk(records, d, d.sources[i]);
        ClosurePreserved(p, records, after, targets, d.sources[i].artifact);
        assert AtLeastAsStrict(d.lifecycle, d.sources[i].version.lifecycle);
      }
    }
  }

  /** Nothing but originals is new, and no record's restrictions change or become active again. */
  lemma NoNewDerivedKeepsContained(p: Policy, before: Catalog, after: Catalog, targets: set<ArtifactId>)
    requires p.Valid() && CatalogOk(p, before) && CatalogOk(p, after) && Preserves(before, after)
    requires targets <= before.Keys && Contained(before, targets)
    requires forall a :: a in after && a !in before ==> after[a].sources == []
    ensures Contained(after, targets)
  {
    forall a | a in after && InClosure(after, targets, a) && after[a].state == Active
      ensures after[a].lifecycle.holds != {}
    {
      if a in before {
        ClosurePreserved(p, before, after, targets, a);
        assert SameRecord(before[a], after[a]);
      } else {
        ClosureEntersThroughSource(p, after, targets, a);
      }
    }
  }

  lemma OtherStepsAddOriginals(p: Policy, s: State, step: Step)
    requires p.Valid() && !step.DoDerive?
    ensures var after := Apply(p, s, step).records;
            forall a :: a in after && a !in s.records ==> after[a].sources == []
  {
  }

  lemma StepKeepsContained(p: Policy, s: State, step: Step, targets: set<ArtifactId>)
    requires p.Valid() && StateOk(p, s) && StepValid(step)
    requires targets <= s.records.Keys && Contained(s.records, targets)
    ensures Contained(Apply(p, s, step).records, targets)
  {
    if step.DoDerive? {
      DeriveKeepsContained(p, s.records, step.derivation, targets);
    } else {
      StepKeepsState(p, s, step);
      OtherStepsAddOriginals(p, s, step);
      NoNewDerivedKeepsContained(p, s.records, Apply(p, s, step).records, targets);
    }
  }

  lemma PreservesKeys(before: Catalog, after: Catalog, targets: set<ArtifactId>)
    requires Preserves(before, after) && targets <= before.Keys
    ensures targets <= after.Keys
  {
    forall a | a in targets ensures a in after { assert a in before; }
  }

  /** Containment is permanent: no later registration, derivation or deletion breaks it. */
  lemma {:induction false} ContainedForever(p: Policy, s: State, run: seq<Step>, targets: set<ArtifactId>)
    requires p.Valid() && StateOk(p, s) && RunValid(run)
    requires targets <= s.records.Keys && Contained(s.records, targets)
    ensures Contained(Run(p, s, run).records, targets)
  {
    if run != [] {
      var before := run[..|run| - 1];
      RunKeepsState(p, s, before);
      ContainedForever(p, s, before, targets);
      PreservesKeys(s.records, Run(p, s, before).records, targets);
      StepKeepsContained(p, Run(p, s, before), run[|run| - 1], targets);
    }
  }

  /** A plan for a cascading request names every active, unheld record of the closure it saw. */
  lemma PlanCoversClosure(p: Policy, records: Catalog, q: DeletionRequest, now: int, plan: Plan, a: ArtifactId)
    requires p.Valid() && CatalogOk(p, records) && q.cascade && IsPlan(p, records, q, now, plan)
    requires InClosure(records, Seeds(records, q), a) && a in records
    requires records[a].state == Active && records[a].lifecycle.holds == {}
    ensures a in PlanArtifacts(plan)
  {
    assert a in Unheld(records, q);
    assert RecordKept(p, a, records[a]);
    var action := Action(a, records[a], records[a].locations[0]);
    assert action in ActionSet(records, Unheld(records, q));
    assert action in plan.actions;
    var i :| 0 <= i < |plan.actions| && plan.actions[i] == action;
    assert plan.actions[i].artifact == a;
  }

  /** The plan names every active, unheld record that is a target or descends from one. */
  ghost predicate CoversClosure(records: Catalog, plan: Plan, targets: set<ArtifactId>) {
    forall a :: a in records && InClosure(records, targets, a) && records[a].state == Active
                && records[a].lifecycle.holds == {} ==>
      a in PlanArtifacts(plan)
  }

  lemma TombstonedIsInactive(p: Policy, records: Catalog, plan: Plan, targets: set<ArtifactId>)
    requires p.Valid() && CatalogOk(p, records) && Preserves(records, TombstoneAll(records, plan))
    ensures Contained(TombstoneAll(records, plan), targets) <==> CoversClosure(records, plan, targets)
  {
    var after := TombstoneAll(records, plan);
    forall a | a in records ensures InClosure(after, targets, a) <==> InClosure(records, targets, a) {
      ClosurePreserved(p, records, after, targets, a);
    }
    forall a | a in records
      ensures after[a].lifecycle == records[a].lifecycle
      ensures after[a].state == Active <==> records[a].state == Active && a !in PlanArtifacts(plan)
    {
    }
  }

  /** Nothing unheld was derived from a target after the plan looked. */
  ghost predicate NothingUnheldDerived(before: Catalog, now_: Catalog, targets: set<ArtifactId>) {
    forall a :: a in now_ && a !in before && InClosure(now_, targets, a) && now_[a].state == Active ==>
      now_[a].lifecycle.holds != {}
  }

  lemma PlanMissesOnlyNewRecords(p: Policy, before: Catalog, now_: Catalog, q: DeletionRequest, planned: int, plan: Plan)
    requires p.Valid() && CatalogOk(p, before) && CatalogOk(p, now_) && Preserves(before, now_)
    requires q.cascade && IsPlan(p, before, q, planned, plan)
    ensures CoversClosure(now_, plan, Seeds(before, q)) <==> NothingUnheldDerived(before, now_, Seeds(before, q))
  {
    var targets := Seeds(before, q);
    forall a | a in now_ && InClosure(now_, targets, a) && now_[a].state == Active && now_[a].lifecycle.holds == {}
      ensures a in PlanArtifacts(plan) <==> a in before
    {
      if a in before {
        ClosurePreserved(p, before, now_, targets, a);
        assert SameRecord(before[a], now_[a]);
        PlanCoversClosure(p, before, q, planned, plan, a);
      } else if a in PlanArtifacts(plan) {
        PlannedWasKnown(p, before, q, planned, plan, a);
      }
    }
  }

  lemma StartTombstones(p: Policy, s: State, t: int, plan: Plan, now: int)
    requires p.Valid() && t !in s.running && ExecutionAdmitted(s.records, plan, now)
    ensures Apply(p, s, DoTombstone(t, plan, now)).records == TombstoneAll(s.records, plan)
  {
  }

  lemma PhaseContainsIff(p: Policy, before: Catalog, now_: Catalog, q: DeletionRequest, planned: int, plan: Plan, now: int)
    requires p.Valid() && CatalogOk(p, before) && CatalogOk(p, now_) && Preserves(before, now_)
    requires q.cascade && IsPlan(p, before, q, planned, plan) && ExecutionAdmitted(now_, plan, now)
    ensures Contained(TombstoneAll(now_, plan), Seeds(before, q)) <==> NothingUnheldDerived(before, now_, Seeds(before, q))
  {
    TombstoneKeepsCatalog(p, now_, plan, now);
    TombstonedIsInactive(p, now_, plan, Seeds(before, q));
    PlanMissesOnlyNewRecords(p, before, now_, q, planned, plan);
  }

  /**
   After the tombstone phase of a cascade plan every active target or descendant carries a hold, exactly
   when no unheld record was derived from a target between planning and that phase.
   */
  lemma TombstonesContainIff(p: Policy, s0: State, run: seq<Step>, q: DeletionRequest, planned: int, plan: Plan,
                             t: int, now: int)
    requires p.Valid() && StateOk(p, s0) && RunValid(run)
    requires q.cascade && IsPlan(p, s0.records, q, planned, plan)
    requires var s := Run(p, s0, run); t !in s.running && ExecutionAdmitted(s.records, plan, now)
    ensures var s := Run(p, s0, run);
            Contained(Apply(p, s, DoTombstone(t, plan, now)).records, Seeds(s0.records, q))
            <==> NothingUnheldDerived(s0.records, s.records, Seeds(s0.records, q))
  {
    RunKeepsState(p, s0, run);
    var s := Run(p, s0, run);
    PhaseContainsIff(p, s0.records, s.records, q, planned, plan, now);
    StartTombstones(p, s, t, plan, now);
  }

  lemma PlannedWasKnown(p: Policy, records: Catalog, q: DeletionRequest, now: int, plan: Plan, a: ArtifactId)
    requires IsPlan(p, records, q, now, plan) && a in PlanArtifacts(plan)
    ensures a in records && a in Pending(records, q) && records[a].lifecycle.holds == {}
  {
    var i :| 0 <= i < |plan.actions| && plan.actions[i].artifact == a;
    assert plan.actions[i] in ActionSet(records, Unheld(records, q));
  }

  ghost predicate Derives(run: seq<Step>) {
    exists i :: 0 <= i < |run| && run[i].DoDerive?
  }

  ghost predicate OriginalsAdded(before: Catalog, after: Catalog) {
    forall a :: a in after && a !in before ==> after[a].sources == []
  }

  lemma OneMoreAddsOriginals(p: Policy, before: Catalog, s: State, step: Step)
    requires p.Valid() && StateOk(p, s) && StepValid(step) && !step.DoDerive? && OriginalsAdded(before, s.records)
    ensures OriginalsAdded(before, Apply(p, s, step).records)
  {
    var after := Apply(p, s, step).records;
    StepKeepsState(p, s, step);
    OtherStepsAddOriginals(p, s, step);
    forall a | a in after && a !in before ensures after[a].sources == [] {
      if a in s.records { assert SameRecord(s.records[a], after[a]); }
    }
  }

  /** Without derivations, a run only adds originals, which descend from nothing. */
  lemma {:induction false} OnlyOriginalsAdded(p: Policy, s: State, run: seq<Step>)
    requires p.Valid() && StateOk(p, s) && RunValid(run) && !Derives(run)
    ensures OriginalsAdded(s.records, Run(p, s, run).records)
  {
    if run != [] {
      var before := run[..|run| - 1];
      assert forall i :: 0 <= i < |before| ==> before[i] == run[i];
      RunKeepsState(p, s, before);
      OnlyOriginalsAdded(p, s, before);
      OneMoreAddsOriginals(p, s.records, Run(p, s, before), run[|run| - 1]);
    }
  }

  lemma NoDerivationNoEscape(p: Policy, s: State, run: seq<Step>, targets: set<ArtifactId>)
    requires p.Valid() && StateOk(p, s) && RunValid(run) && !Derives(run) && targets <= s.records.Keys
    ensures NothingUnheldDerived(s.records, Run(p, s, run).records, targets)
  {
    RunKeepsState(p, s, run);
    OnlyOriginalsAdded(p, s, run);
    var after := Run(p, s, run).records;
    forall a | a in after && a !in s.records ensures !InClosure(after, targets, a) {
      if InClosure(after, targets, a) { ClosureEntersThroughSource(p, after, targets, a); }
    }
  }

  /**
   A cascade plan that reaches its tombstone phase with no derivation since planning contains its targets
   then and at every later time.
   */
  lemma CascadeContains(p: Policy, s0: State, run: seq<Step>, q: DeletionRequest, planned: int, plan: Plan,
                        t: int, now: int, later: seq<Step>)
    requires p.Valid() && StateOk(p, s0) && RunValid(run) && RunValid(later) && !Derives(run)
    requires q.cascade && IsPlan(p, s0.records, q, planned, plan)
    requires var s := Run(p, s0, run); t !in s.running && ExecutionAdmitted(s.records, plan, now)
    ensures var s := Apply(p, Run(p, s0, run), DoTombstone(t, plan, now));
            Contained(Run(p, s, later).records, Seeds(s0.records, q))
  {
    var s := Run(p, s0, run);
    var targets := Seeds(s0.records, q);
    RunKeepsState(p, s0, run);
    NoDerivationNoEscape(p, s0, run, targets);
    TombstonesContainIff(p, s0, run, q, planned, plan, t, now);
    var step := DoTombstone(t, plan, now);
    StepKeepsState(p, s, step);
    PreservesKeys(s0.records, s.records, targets);
    PreservesKeys(s.records, Apply(p, s, step).records, targets);
    ContainedForever(p, Apply(p, s, step), later, targets);
  }

  /** What a derivation adds, a plan made before it leaves alone. */
  lemma PlanSparesDerived(p: Policy, records: Catalog, q: DeletionRequest, planned: int, plan: Plan, d: Derivation)
    requires p.Valid() && IsPlan(p, records, q, planned, plan) && DeriveOk(p, records, d)
    ensures var after := TombstoneAll(Derive(p, records, d), plan);
            d.id in after && after[d.id] == DerivedRecord(d)
  {
    if d.id in PlanArtifacts(plan) {
      PlannedWasKnown(p, records, q, planned, plan, d.id);
    }
  }

  lemma EscapeIsNotContained(records: Catalog, d: Derivation, targets: set<ArtifactId>)
    requires d.id in records && records[d.id] == DerivedRecord(d) && d.lifecycle.holds == {}
    requires d.sources != [] && d.sources[0].artifact in targets
    ensures Descends(records, d.id, d.sources[0].artifact) && !Contained(records, targets)
  {
    assert records[d.id].sources[0].artifact == d.sources[0].artifact;
    ChildDescends(records, d.id, d.sources[0].artifact);
  }

  /** The escape: a derivation between planning and execution leaves an unheld, active copy of the target. */
  lemma DerivationEscapesPlan(p: Policy, s0: State, q: DeletionRequest, planned: int, plan: Plan, d: Derivation,
                              t: int, now: int)
    requires p.Valid() && StateOk(p, s0) && q.cascade && IsPlan(p, s0.records, q, planned, plan)
    requires DeriveOk(p, s0.records, d) && d.lifecycle.holds == {}
    requires d.sources != [] && d.sources[0].artifact in Seeds(s0.records, q)
    requires t !in s0.running && ExecutionAdmitted(Derive(p, s0.records, d), plan, now)
    ensures var s := Apply(p, Apply(p, s0, DoDerive(d)), DoTombstone(t, plan, now));
            && d.id in s.records && s.records[d.id] == DerivedRecord(d)
            && Descends(s.records, d.id, d.sources[0].artifact)
            && !Contained(s.records, Seeds(s0.records, q))
  {
    StartTombstones(p, Apply(p, s0, DoDerive(d)), t, plan, now);
    PlanSparesDerived(p, s0.records, q, planned, plan, d);
    EscapeIsNotContained(TombstoneAll(Derive(p, s0.records, d), plan), d, Seeds(s0.records, q));
  }
}
