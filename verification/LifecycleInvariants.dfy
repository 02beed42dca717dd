/** What every run of the data-lifecycle catalogue keeps, and what that says about lineage and use. */
module LifecycleInvariants {
  import opened Wrappers
  import opened LifecycleModel

  /******* The catalogue invariant *******/

  /** `r` keeps every rule it was admitted under; only its deletion state may have moved on. */
  predicate RecordKept(p: Policy, a: ArtifactId, r: Record)
    requires p.Valid()
  {
    && r.id == a
    && RecordValid(r)
    && RecordOk(p, r.(state := Active))
    && (r.lifecycle.holds != {} ==> r.state == Active)
  }

  /** A source is catalogued below its child, in the same tenant, and bounds the child's obligations. */
  predicate SourceKept(records: Catalog, r: Record, source: ArtifactId) {
    && source in records
    && records[source].tenant == r.tenant
    && records[source].depth < r.depth
    && AtLeastAsStrict(r.lifecycle, records[source].lifecycle)
  }

  ghost predicate CatalogOk(p: Policy, records: Catalog)
    requires p.Valid()
  {
    && (forall a :: a in records ==> RecordKept(p, a, records[a]))
    && (forall a, i :: a in records && 0 <= i < |records[a].sources| ==>
          SourceKept(records, records[a], records[a].sources[i].artifact))
  }

  /** Whatever an unfinished execution works on has already been tombstoned and carries no hold. */
  ghost predicate RunningOk(s: State) {
    forall t, a :: t in s.running && a in PlanArtifacts(s.running[t].plan) ==>
      && a in s.records
      && s.records[a].state != Active
      && s.records[a].lifecycle.holds == {}
  }

  ghost predicate StateOk(p: Policy, s: State)
    requires p.Valid()
  {
    CatalogOk(p, s.records) && RunningOk(s)
  }

  /** Everything but the deletion state of a record is fixed when it enters the catalogue. */
  predicate SameRecord(old_: Record, new_: Record) {
    && new_ == old_.(version := new_.version, state := new_.state, tombstone := new_.tombstone)
    && (new_.state == Active ==> new_ == old_)
  }

  /** No record is removed, and none changes beyond its deletion state. */
  ghost predicate Preserves(before: Catalog, after: Catalog) {
    forall a :: a in before ==> a in after && SameRecord(before[a], after[a])
  }

  lemma SourcesSurvive(p: Policy, before: Catalog, after: Catalog, a: ArtifactId)
    requires p.Valid() && CatalogOk(p, before) && Preserves(before, after) && a in before
    ensures forall i :: 0 <= i < |after[a].sources| ==> SourceKept(after, after[a], after[a].sources[i].artifact)
  {
    forall i | 0 <= i < |after[a].sources|
      ensures SourceKept(after, after[a], after[a].sources[i].artifact)
    {
      assert SourceKept(before, before[a], before[a].sources[i].artifact);
    }
  }

  lemma RegisterKeepsCatalog(p: Policy, records: Catalog, r: Record, intact: bool)
    requires p.Valid() && CatalogOk(p, records) && RecordValid(r)
    ensures CatalogOk(p, Register(p, records, r, intact)) && Preserves(records, Register(p, records, r, intact))
  {
    if RegisterOk(p, records, r, intact) {
      var after := records[r.id := r];
      forall a | a in records { SourcesSurvive(p, records, after, a); }
    }
  }

  lemma {:induction false} MaxDepthBounds(sources: seq<Source>, i: nat)
    requires i < |sources|
    ensures sources[i].version.depth <= MaxDepth(sources)
  {
    if i > 0 { MaxDepthBounds(sources[1..], i - 1); }
  }

  lemma DeriveKeepsCatalog(p: Policy, records: Catalog, d: Derivation)
    requires p.Valid() && CatalogOk(p, records)
    ensures CatalogOk(p, Derive(p, records, d)) && Preserves(records, Derive(p, records, d))
  {
    if DeriveOk(p, records, d) {
      var r := DerivedRecord(d);
      var after := records[d.id := r];
      forall a | a in records { SourcesSurvive(p, records, after, a); }
      forall i | 0 <= i < |r.sources| ensures SourceKept(after, r, r.sources[i].artifact) {
        MaxDepthBounds(d.sources, i);
        assert SourceOk(records, d, d.sources[i]);
        assert AtLeastAsStrict(d.lifecycle, d.sources[i].version.lifecycle);
      }
    }
  }

  /** Changing only deletion states, and never activating or marking a held record, keeps the catalogue. */
  lemma MarkingKeepsCatalog(p: Policy, before: Catalog, after: Catalog)
    requires p.Valid() && CatalogOk(p, before) && Preserves(before, after) && after.Keys == before.Keys
    requires forall a :: a in before ==> (after[a].state == Active <==> after[a].tombstone.None?)
    requires forall a :: a in before && before[a].lifecycle.holds != {} ==> after[a] == before[a]
    ensures CatalogOk(p, after)
  {
    forall a | a in after ensures RecordKept(p, a, after[a]) {
      assert RecordKept(p, a, before[a]);
    }
    forall a | a in after { SourcesSurvive(p, before, after, a); }
  }

  lemma PlannedActions(plan: Plan, a: ArtifactId)
    requires a in PlanArtifacts(plan)
    ensures exists i :: 0 <= i < |plan.actions| && plan.actions[i].artifact == a
  {
  }

  lemma TombstoneKeepsCatalog(p: Policy, records: Catalog, plan: Plan, now: int)
    requires p.Valid() && CatalogOk(p, records) && ExecutionAdmitted(records, plan, now)
    ensures CatalogOk(p, TombstoneAll(records, plan)) && Preserves(records, TombstoneAll(records, plan))
    ensures forall a :: a in PlanArtifacts(plan) ==>
              a in records && records[a].state != Verified && records[a].lifecycle.holds == {}
  {
    var after := TombstoneAll(records, plan);
    forall a | a in PlanArtifacts(plan)
      ensures a in records && records[a].state != Verified && records[a].lifecycle.holds == {}
    {
      PlannedActions(plan, a);
    }
    forall a | a in records ensures after[a].state == Active <==> after[a].tombstone.None? {
      assert RecordKept(p, a, records[a]);
    }
    MarkingKeepsCatalog(p, records, after);
  }

  lemma FinaliseKeepsCatalog(p: Policy, s: State, t: int, evidence: seq<Evidence>)
    requires p.Valid() && StateOk(p, s) && t in s.running && |evidence| == |s.running[t].plan.actions|
    ensures var after := FinaliseAll(s.records, s.running[t].plan, s.running[t].now, evidence);
            CatalogOk(p, after) && Preserves(s.records, after)
  {
    var after := FinaliseAll(s.records, s.running[t].plan, s.running[t].now, evidence);
    forall a | a in s.records ensures after[a].state == Active <==> after[a].tombstone.None? {
      assert RecordKept(p, a, s.records[a]);
    }
    MarkingKeepsCatalog(p, s.records, after);
  }

  lemma PreservedRunning(s: State, after: Catalog)
    requires RunningOk(s) && Preserves(s.records, after)
    ensures RunningOk(State(after, s.running))
  {
  }

  /** One step keeps the invariant, removes nothing, and returns no artifact to the active state. */
  lemma StepKeepsState(p: Policy, s: State, step: Step)
    requires p.Valid() && StateOk(p, s) && StepValid(step)
    ensures StateOk(p, Apply(p, s, step)) && Preserves(s.records, Apply(p, s, step).records)
  {
    match step
    case DoRegister(r, intact) =>
      RegisterKeepsCatalog(p, s.records, r, intact);
      PreservedRunning(s, Register(p, s.records, r, intact));
    case DoDerive(d) =>
      DeriveKeepsCatalog(p, s.records, d);
      PreservedRunning(s, Derive(p, s.records, d));
    case DoTombstone(t, plan, now) =>
      if t !in s.running && ExecutionAdmitted(s.records, plan, now) {
        TombstoneKeepsCatalog(p, s.records, plan, now);
        PreservedRunning(s, TombstoneAll(s.records, plan));
      }
    case DoFinalise(t, evidence) =>
      if t in s.running && |evidence| == |s.running[t].plan.actions| {
        FinaliseKeepsCatalog(p, s, t, evidence);
        PreservedRunning(s, FinaliseAll(s.records, s.running[t].plan, s.running[t].now, evidence));
      }
  }

  ghost predicate RunValid(run: seq<Step>) {
    forall i :: 0 <= i < |run| ==> StepValid(run[i])
  }

  lemma {:induction false} RunKeepsState(p: Policy, s: State, run: seq<Step>)
    requires p.Valid() && StateOk(p, s) && RunValid(run)
    ensures StateOk(p, Run(p, s, run)) && Preserves(s.records, Run(p, s, run).records)
  {
    if run != [] {
      RunKeepsState(p, s, run[..|run| - 1]);
      StepKeepsState(p, Run(p, s, run[..|run| - 1]), run[|run| - 1]);
    }
  }

  /** Every reachable catalogue satisfies the invariant. */
  lemma ReachableStateOk(p: Policy, run: seq<Step>)
    requires p.Valid() && RunValid(run)
    ensures StateOk(p, Run(p, Empty, run))
  {
    RunKeepsState(p, Empty, run);
  }

  /** A held artifact stays active, and an artifact once marked is never active again, whatever follows. */
  lemma HeldStaysActive(p: Policy, s: State, run: seq<Step>, a: ArtifactId)
    requires p.Valid() && StateOk(p, s) && RunValid(run) && a in s.records
    ensures a in Run(p, s, run).records
    ensures s.records[a].lifecycle.holds != {} ==> Run(p, s, run).records[a] == s.records[a]
    ensures s.records[a].state != Active ==> Run(p, s, run).records[a].state != Active
  {
    RunKeepsState(p, s, run);
    var after := Run(p, s, run).records;
    assert SameRecord(s.records[a], after[a]) && RecordKept(p, a, after[a]);
    assert RecordKept(p, a, s.records[a]);
  }

  /******* Lineage *******/

  lemma StrictnessComposes(x: Lifecycle, y: Lifecycle, z: Lifecycle)
    requires AtLeastAsStrict(x, y) && AtLeastAsStrict(y, z)
    ensures AtLeastAsStrict(x, z)
  {
  }

  /** Along a chain of sources depth falls at every link, and the start keeps every restriction of the end. */
  lemma {:induction false} PathDescends(p: Policy, records: Catalog, path: seq<ArtifactId>, x: ArtifactId, y: ArtifactId)
    requires p.Valid() && CatalogOk(p, records) && LineagePath(records, path, x, y)
    ensures x in records && y in records
    ensures records[x].depth >= records[y].depth + |path| - 1
    ensures records[x].tenant == records[y].tenant
    ensures AtLeastAsStrict(records[x].lifecycle, records[y].lifecycle)
    decreases |path|
  {
    var next := path[1];
    assert Parent(records, path[0], path[1]);
    assert SourceKept(records, records[x], next);
    if |path| > 2 {
      var rest := path[1..];
      forall i | 0 <= i < |rest| - 1 ensures Parent(records, rest[i], rest[i + 1]) {
        assert Parent(records, path[i + 1], path[i + 2]);
      }
      PathDescends(p, records, rest, next, y);
      StrictnessComposes(records[x].lifecycle, records[next].lifecycle, records[y].lifecycle);
    }
  }

  /** Every record is at least as strict as each of its transitive ancestors, and sits strictly below it. */
  lemma AncestorsBound(p: Policy, records: Catalog, x: ArtifactId, y: ArtifactId)
    requires p.Valid() && CatalogOk(p, records) && Descends(records, x, y)
    ensures x in records && y in records && x != y
    ensures records[x].depth > records[y].depth
    ensures records[x].tenant == records[y].tenant
    ensures AtLeastAsStrict(records[x].lifecycle, records[y].lifecycle)
  {
    var path :| LineagePath(records, path, x, y);
    PathDescends(p, records, path, x, y);
  }

  /** In no reachable catalogue does an artifact descend from itself. */
  lemma LineageIsAcyclic(p: Policy, run: seq<Step>, a: ArtifactId)
    requires p.Valid() && RunValid(run)
    ensures !Descends(Run(p, Empty, run).records, a, a)
  {
    ReachableStateOk(p, run);
    if Descends(Run(p, Empty, run).records, a, a) {
      AncestorsBound(p, Run(p, Empty, run).records, a, a);
    }
  }

  /** An authorised use meets every ancestor's purposes, residencies and deadline; training needs every consent. */
  lemma UseMeetsAncestors(p: Policy, run: seq<Step>, u: Use, now: int, y: ArtifactId)
    requires p.Valid() && RunValid(run)
    requires UseOk(p, Run(p, Empty, run).records, u, now)
    requires Descends(Run(p, Empty, run).records, u.artifact, y)
    ensures y in Run(p, Empty, run).records
    ensures var up := Run(p, Empty, run).records[y];
            && up.tenant == u.tenant
            && u.purpose in up.lifecycle.purposes
            && u.residency in up.lifecycle.residencies
            && now < up.lifecycle.retentionUntil
            && (u.requestedRetention.Some? ==> u.requestedRetention.value <= up.lifecycle.retentionUntil)
            && (u.training ==> up.lifecycle.consent == Granted && up.lifecycle.classification in p.trainable)
  {
    ReachableStateOk(p, run);
    var records := Run(p, Empty, run).records;
    AncestorsBound(p, records, u.artifact, y);
    assert RecordKept(p, y, records[y]);
  }

  /** Below a held artifact everything is held, so nothing there can ever leave the active state. */
  lemma HoldsReachDescendants(p: Policy, s: State, run: seq<Step>, x: ArtifactId, y: ArtifactId)
    requires p.Valid() && StateOk(p, s) && RunValid(run)
    requires Descends(s.records, x, y) && y in s.records && s.records[y].lifecycle.holds != {}
    ensures x in s.records && x in Run(p, s, run).records && Run(p, s, run).records[x] == s.records[x]
    ensures s.records[x].state == Active && s.records[y].lifecycle.holds <= s.records[x].lifecycle.holds
  {
    AncestorsBound(p, s.records, x, y);
    HeldStaysActive(p, s, run, x);
    assert RecordKept(p, x, s.records[x]);
  }
}
