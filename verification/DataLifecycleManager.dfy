/** The data-lifecycle manager as the mutable catalogue it is, proved against LifecycleModel. */
module DataLifecycle {
  import opened Wrappers
  import opened LifecycleModel
  import opened LifecycleInvariants
  import opened LifecycleDeletion

  /******* Common obligations of several sources *******/

  function Tighten(x: Lifecycle, y: Lifecycle): Lifecycle {
    Lifecycle(
      if y.classification.Rank() > x.classification.Rank() then y.classification else x.classification,
      x.purposes * y.purposes,
      x.residencies * y.residencies,
      if y.retentionUntil < x.retentionUntil then y.retentionUntil else x.retentionUntil,
      if y.consent.Rank() > x.consent.Rank() then y.consent else x.consent,
      x.holds + y.holds,
      x.subjects + y.subjects)
  }

  /** Being as strict as both is being as strict as the tightened obligations. */
  lemma TightenIsBoth(z: Lifecycle, x: Lifecycle, y: Lifecycle)
    ensures AtLeastAsStrict(z, Tighten(x, y)) <==> AtLeastAsStrict(z, x) && AtLeastAsStrict(z, y)
  {
  }

  predicate PreservesEverySource(z: Lifecycle, sources: seq<Record>) {
    forall i :: 0 <= i < |sources| ==> AtLeastAsStrict(z, sources[i].lifecycle)
  }

  /** What a record derived from all of `sources` must at least preserve. */
  method CommonObligations(sources: seq<Record>) returns (common: Lifecycle)
    requires sources != []
    ensures forall z :: AtLeastAsStrict(z, common) <==> PreservesEverySource(z, sources)
  {
    common := sources[0].lifecycle;
    var i := 1;
    while i < |sources|
      invariant 1 <= i <= |sources|
      invariant forall z :: AtLeastAsStrict(z, common) <==> PreservesEverySource(z, sources[..i])
    {
      forall z
        ensures AtLeastAsStrict(z, Tighten(common, sources[i].lifecycle)) <==> PreservesEverySource(z, sources[..i + 1])
      {
        TightenIsBoth(z, common, sources[i].lifecycle);
        OneMoreSource(z, sources, i);
      }
      common := Tighten(common, sources[i].lifecycle);
      i := i + 1;
    }
    assert sources[..i] == sources;
  }

  lemma OneMoreSource(z: Lifecycle, sources: seq<Record>, i: nat)
    requires i < |sources|
    ensures PreservesEverySource(z, sources[..i + 1])
            <==> PreservesEverySource(z, sources[..i]) && AtLeastAsStrict(z, sources[i].lifecycle)
  {
    if PreservesEverySource(z, sources[..i + 1]) {
      assert sources[..i + 1][i] == sources[i];
      forall k | 0 <= k < i ensures AtLeastAsStrict(z, sources[..i][k].lifecycle) {
        assert sources[..i + 1][k] == sources[..i][k];
      }
    } else {
      var k :| 0 <= k < i + 1 && !AtLeastAsStrict(z, sources[..i + 1][k].lifecycle);
      if k < i { assert sources[..i][k] == sources[..i + 1][k]; }
    }
  }

  /******* The cascade loop *******/

  /** Whether some direct source of `r` is selected. */
  predicate TouchesSelected(r: Record, selected: set<ArtifactId>) {
    exists i :: 0 <= i < |r.sources| && r.sources[i].artifact in selected
  }

  ghost predicate OnlyClosure(records: Catalog, seeds: set<ArtifactId>, selected: set<ArtifactId>) {
    && seeds <= selected
    && forall a :: a in selected ==> InClosure(records, seeds, a)
  }

  lemma SelectChild(records: Catalog, seeds: set<ArtifactId>, selected: set<ArtifactId>, a: ArtifactId)
    requires OnlyClosure(records, seeds, selected) && a in records && TouchesSelected(records[a], selected)
    ensures OnlyClosure(records, seeds, selected + {a})
  {
    var i :| 0 <= i < |records[a].sources| && records[a].sources[i].artifact in selected;
    var y := records[a].sources[i].artifact;
    assert Parent(records, a, y);
    ChildInClosure(records, seeds, a, y);
  }

  /** A pass over the catalogue that selects nothing new leaves a set that contains the whole closure. */
  lemma FixpointIsClosure(records: Catalog, tenant: TenantId, seeds: set<ArtifactId>, selected: set<ArtifactId>)
    requires OnlyClosure(records, seeds, selected)
    requires forall a :: a in records && InClosure(records, seeds, a) ==> records[a].tenant == tenant
    requires forall a :: a in records && records[a].tenant == tenant && TouchesSelected(records[a], selected) ==>
               a in selected
    ensures forall a :: a in records && InClosure(records, seeds, a) ==> a in selected
  {
    forall x, y | Parent(records, x, y) && y in selected ensures x in selected {
      ChildInClosure(records, seeds, x, y);
      var i :| 0 <= i < |records[x].sources| && records[x].sources[i].artifact == y;
      assert TouchesSelected(records[x], selected);
    }
    forall a | a in records && InClosure(records, seeds, a) ensures a in selected {
      ClosedHoldsClosure(records, seeds, selected, a);
    }
  }

  /**
   Repeat passes over the catalogue until none selects anything new. The result is the seeds and all their
   transitive descendants, whatever order the records are visited in.
   */
  method Cascade(records: Catalog, tenant: TenantId, seeds: set<ArtifactId>) returns (selected: set<ArtifactId>)
    requires seeds <= records.Keys
    requires forall a :: a in records && InClosure(records, seeds, a) ==> records[a].tenant == tenant
    ensures selected == set a | a in records && InClosure(records, seeds, a)
  {
    selected := seeds;
    var changed := true;
    while changed
      invariant selected <= records.Keys && OnlyClosure(records, seeds, selected)
      invariant !changed ==>
                  forall a :: a in records && records[a].tenant == tenant && TouchesSelected(records[a], selected) ==>
                    a in selected
      decreases records.Keys - selected, changed
    {
      changed := false;
      ghost var before := selected;
      var todo := records.Keys;
      while todo != {}
        invariant todo <= records.Keys
        invariant before <= selected <= records.Keys && OnlyClosure(records, seeds, selected)
        invariant changed ==> before < selected
        invariant !changed ==> selected == before
        invariant !changed ==>
                    forall a :: a in records && a !in todo && records[a].tenant == tenant
                                && TouchesSelected(records[a], selected) ==>
                      a in selected
        decreases todo
      {
        var a := NextOf(todo);
        todo := todo - {a};
        if records[a].tenant == tenant && a !in selected && TouchesSelected(records[a], selected) {
          SelectChild(records, seeds, selected, a);
          selected := selected + {a};
          changed := true;
        }
      }
    }
    FixpointIsClosure(records, tenant, seeds, selected);
  }

  /******* Plan actions *******/

  lemma {:induction false} DistinctSize<T>(s: seq<T>, members: set<T>)
    requires Distinct(s) && (forall x :: x in s <==> x in members)
    ensures |s| == |members|
  {
    if s == [] {
      assert members == {};
    } else {
      var last := s[|s| - 1];
      var rest := s[..|s| - 1];
      forall x ensures x in rest <==> x in members - {last} {
        if x in rest {
          var i :| 0 <= i < |rest| && rest[i] == x;
          assert s[i] == x;
        }
      }
      DistinctSize(rest, members - {last});
    }
  }

  /** The actions for the records `ids`: one for each location of each. */
  ghost predicate ActionsFor(records: Catalog, ids: set<ArtifactId>, actions: seq<Action>) {
    Distinct(actions) && forall x :: x in actions <==> x in ActionSet(records, ids)
  }

  /** The actions for one record. */
  method LocationActions(a: ArtifactId, r: Record) returns (actions: seq<Action>)
    requires RecordValid(r)
    ensures Distinct(actions)
    ensures forall x :: x in actions <==> x.artifact == a && x.expected == r && x.location in r.locations
  {
    actions := [];
    var i := 0;
    while i < |r.locations|
      invariant 0 <= i <= |r.locations| && |actions| == i
      invariant forall k :: 0 <= k < i ==> actions[k] == Action(a, r, r.locations[k])
    {
      actions := actions + [Action(a, r, r.locations[i])];
      i := i + 1;
    }
    forall x: Action | x.artifact == a && x.expected == r && x.location in r.locations ensures x in actions {
      var k :| 0 <= k < |r.locations| && r.locations[k] == x.location;
      assert actions[k] == x;
    }
  }

  lemma DistinctAppend(s: seq<Action>, t: seq<Action>)
    requires Distinct(s) && Distinct(t) && forall x :: x in s ==> x !in t
    ensures Distinct(s + t)
  {
    forall i, j | 0 <= i < j < |s + t| ensures (s + t)[i] != (s + t)[j] {
      if i < |s| <= j { assert s[i] in s && t[j - |s|] in t; }
    }
  }

  lemma MoreActions(records: Catalog, ids: set<ArtifactId>, actions: seq<Action>, a: ArtifactId, more: seq<Action>)
    requires ActionsFor(records, ids, actions) && a in records && a !in ids && Distinct(more)
    requires forall x :: x in more <==> x.artifact == a && x.expected == records[a] && x.location in records[a].locations
    ensures ActionsFor(records, ids + {a}, actions + more)
  {
    forall x | x in actions ensures x !in more {
      assert x in ActionSet(records, ids);
    }
    DistinctAppend(actions, more);
    forall x: Action ensures x in actions + more <==> x in ActionSet(records, ids + {a}) {
      assert x in actions <==> x in ActionSet(records, ids);
    }
  }

  /** Visit the selected records still outstanding: held ones are set aside, each other location gets an action. */
  method CollectActions(records: Catalog, pending: set<ArtifactId>)
    returns (actions: seq<Action>, held: set<ArtifactId>)
    requires pending <= records.Keys && forall a :: a in records ==> RecordValid(records[a])
    ensures held == set a | a in pending && records[a].lifecycle.holds != {}
    ensures ActionsFor(records, pending - held, actions)
  {
    actions, held := [], {};
    ghost var done: set<ArtifactId> := {};
    var todo := pending;
    while todo != {}
      invariant todo <= pending && done == pending - todo
      invariant held == set a | a in done && records[a].lifecycle.holds != {}
      invariant ActionsFor(records, done - held, actions)
      decreases todo
    {
      var a := NextOf(todo);
      if records[a].lifecycle.holds != {} {
        held := held + {a};
        assert done + {a} - held == done - (held - {a});
      } else {
        var more := LocationActions(a, records[a]);
        MoreActions(records, done - held, actions, a, more);
        actions := actions + more;
        assert done + {a} - held == done - held + {a};
      }
      done := done + {a};
      todo := todo - {a};
    }
    assert done == pending;
  }

  /** What the invariant of the catalogue gives planning to work with. */
  lemma ReadyToPlan(p: Policy, records: Catalog, q: DeletionRequest)
    requires p.Valid() && CatalogOk(p, records)
    ensures Seeds(records, q) <= records.Keys
    ensures forall a :: a in records ==> RecordValid(records[a])
    ensures forall a :: a in records && InClosure(records, Seeds(records, q), a) ==> records[a].tenant == q.tenant
  {
    forall a | a in records ensures RecordValid(records[a]) {
      assert RecordKept(p, a, records[a]);
    }
    forall a | a in records && InClosure(records, Seeds(records, q), a) ensures records[a].tenant == q.tenant {
      CascadeStaysInTenant(p, records, q, a);
    }
  }

  lemma PlannedActionsComplete(records: Catalog, q: DeletionRequest, actions: seq<Action>, held: set<ArtifactId>)
    requires Pending(records, q) <= records.Keys
    requires held == set a | a in Pending(records, q) && records[a].lifecycle.holds != {}
    requires ActionsFor(records, Pending(records, q) - held, actions)
    ensures held == Pending(records, q) - Unheld(records, q)
    ensures ActionsFor(records, Unheld(records, q), actions)
    ensures |actions| == |ActionSet(records, Unheld(records, q))|
  {
    assert Pending(records, q) - held == Unheld(records, q);
    DistinctSize(actions, ActionSet(records, Unheld(records, q)));
  }

  lemma MadeIsPlan(p: Policy, records: Catalog, q: DeletionRequest, now: int, plan: Plan)
    requires PlanAllowed(p, records, q, now) && ActionsFor(records, Unheld(records, q), plan.actions)
    requires |plan.actions| == |ActionSet(records, Unheld(records, q))|
    requires plan.held == Pending(records, q) - Unheld(records, q) && plan.request == q && plan.intact
    requires plan.selected == set a | a in Pending(records, q) && a in records :: records[a]
    requires plan.createdAt == now && plan.expiresAt == now + p.planTtl
    ensures IsPlan(p, records, q, now, plan)
  {
  }

  /** Everything but `todo` already has its new record. */
  ghost predicate Halfway(before: Catalog, after: Catalog, todo: set<ArtifactId>, records: Catalog) {
    && records.Keys == before.Keys == after.Keys
    && (forall a :: a in records && a in todo ==> records[a] == before[a])
    && (forall a :: a in records && a !in todo ==> records[a] == after[a])
  }

  lemma HalfwayDone(before: Catalog, after: Catalog, records: Catalog)
    requires Halfway(before, after, {}, records)
    ensures records == after
  {
    assert forall a :: a in records ==> records[a] == after[a];
  }

  class DataLifecycleManager {
    const policy: Policy
    var records: Catalog

    constructor (policy: Policy)
      requires policy.Valid()
      ensures this.policy == policy && records == map[]
    {
      this.policy := policy;
      records := map[];
    }

    method Register(r: Record, intact: bool) returns (allowed: bool)
      requires policy.Valid()
      modifies this`records
      ensures records == LifecycleModel.Register(policy, old(records), r, intact)
      ensures allowed <==> RegisterOk(policy, old(records), r, intact)
    {
      allowed := intact && RecordOk(policy, r) && r.sources == [] && r.id !in records && |records| < policy.maxArtifacts;
      if allowed {
        records := records[r.id := r];
      }
    }

    method Derive(d: Derivation) returns (allowed: bool)
      requires policy.Valid()
      modifies this`records
      ensures records == LifecycleModel.Derive(policy, old(records), d)
      ensures allowed <==> DeriveOk(policy, old(records), d)
    {
      var known := true;
      var found: seq<Record> := [];
      var i := 0;
      while i < |d.sources|
        invariant 0 <= i <= |d.sources|
        invariant known <==> forall k :: 0 <= k < i ==> SourceOk(records, d, d.sources[k])
        invariant known ==> |found| == i && forall k :: 0 <= k < i ==> found[k] == d.sources[k].version
      {
        if d.sources[i].artifact !in records {
          known := false;
        } else {
          var source := records[d.sources[i].artifact];
          if source != d.sources[i].version || source.state != Active || source.tenant != d.tenant {
            known := false;
          }
          found := found + [source];
        }
        i := i + 1;
      }
      var preserved := true;
      if found != [] {
        var common := CommonObligations(found);
        preserved := AtLeastAsStrict(d.lifecycle, common);
      }
      assert known ==> (preserved <==> PreservesEverySource(d.lifecycle, found));
      var candidate := DerivedRecord(d);
      allowed := d.id !in records && |records| < policy.maxArtifacts && |d.sources| <= policy.maxSources
        && known && preserved && candidate.depth <= policy.maxDepth
        && RecordValid(candidate) && RecordOk(policy, candidate);
      if allowed {
        records := records[d.id := candidate];
      }
    }

    method AuthorizeUse(u: Use, now: int) returns (allowed: bool)
      ensures allowed <==> UseOk(policy, records, u, now)
    {
      if u.artifact !in records {
        return false;
      }
      var r := records[u.artifact];
      allowed := r == u.expected && r.state == Active && r.tenant == u.tenant;
      if u.purpose !in r.lifecycle.purposes || u.purpose !in policy.purposes {
        allowed := false;
      }
      if u.residency !in r.lifecycle.residencies || u.residency !in policy.residencies {
        allowed := false;
      }
      if now >= r.lifecycle.retentionUntil {
        allowed := false;
      }
      if u.requestedRetention.Some? && u.requestedRetention.value > r.lifecycle.retentionUntil {
        allowed := false;
      }
      if u.training && (r.lifecycle.consent != Granted || r.lifecycle.classification !in policy.trainable) {
        allowed := false;
      }
    }

    /** Explicit targets and subject copies, and whether every explicit target was known. */
    method SelectSeeds(q: DeletionRequest) returns (selected: set<ArtifactId>, known: bool)
      ensures selected == Seeds(records, q)
      ensures known <==> TargetsKnown(records, q)
    {
      selected, known := {}, true;
      var targets := q.artifacts;
      while targets != {}
        invariant targets <= q.artifacts
        invariant selected == set a | a in q.artifacts && a !in targets && a in records && records[a].tenant == q.tenant
        invariant known <==> forall a :: a in q.artifacts && a !in targets ==> a in records && records[a].tenant == q.tenant
        decreases targets
      {
        var a := NextOf(targets);
        targets := targets - {a};
        if a !in records || records[a].tenant != q.tenant {
          known := false;
        } else {
          selected := selected + {a};
        }
      }
      ghost var explicit := selected;
      var todo := records.Keys;
      while todo != {}
        invariant todo <= records.Keys
        invariant selected == explicit + set a | a in records && a !in todo && records[a].tenant == q.tenant
                                               && records[a].lifecycle.subjects * q.subjects != {}
        decreases todo
      {
        var a := NextOf(todo);
        todo := todo - {a};
        if records[a].tenant == q.tenant && records[a].lifecycle.subjects * q.subjects != {} {
          selected := selected + {a};
        }
      }
    }

    /** The seeds, and with a cascade their descendants. */
    method SelectRecords(q: DeletionRequest) returns (selected: set<ArtifactId>, known: bool)
      requires policy.Valid() && CatalogOk(policy, records)
      ensures selected == Selected(records, q)
      ensures known <==> TargetsKnown(records, q)
    {
      ReadyToPlan(policy, records, q);
      selected, known := SelectSeeds(q);
      if q.cascade {
        selected := Cascade(records, q.tenant, selected);
      }
    }

    /** The plan a request determines, or nothing when planning is refused. */
    method PlanDeletion(q: DeletionRequest, now: int, digest: int) returns (plan: Option<Plan>)
      requires policy.Valid() && CatalogOk(policy, records)
      ensures plan.Some? <==> PlanAllowed(policy, records, q, now)
      ensures plan.Some? ==> IsPlan(policy, records, q, now, plan.value) && plan.value.digest == digest
    {
      ReadyToPlan(policy, records, q);
      var selected, known := SelectRecords(q);
      var expired := q.reason == RetentionExpired ==>
        forall a :: a in selected && a in records ==> records[a].lifecycle.retentionUntil <= now;
      if !q.scoped || !known || selected == {} || !expired {
        return None;
      }
      var pending := set a | a in selected && a in records && records[a].state != Verified;
      assert pending == Pending(records, q);
      var actions, held := CollectActions(records, pending);
      PlannedActionsComplete(records, q, actions, held);
      if |actions| > policy.maxActions {
        return None;
      }
      var versions := set a | a in pending && a in records :: records[a];
      var made := Plan(q, actions, held, versions, now, now + policy.planTtl, digest, true);
      MadeIsPlan(policy, records, q, now, made);
      return Some(made);
    }

    /** First locked section: all checks, then every planned artifact is marked, or nothing changes. */
    method Tombstone(plan: Plan, now: int) returns (admitted: bool)
      modifies this`records
      ensures admitted <==> ExecutionAdmitted(old(records), plan, now)
      ensures records == if admitted then TombstoneAll(old(records), plan) else old(records)
    {
      admitted := plan.intact && now < plan.expiresAt && plan.request.scoped && plan.selected <= records.Values;
      var i := 0;
      while i < |plan.actions|
        invariant 0 <= i <= |plan.actions|
        invariant records == old(records)
        invariant admitted <==>
                    && plan.intact && now < plan.expiresAt && plan.request.scoped && plan.selected <= records.Values
                    && forall k :: 0 <= k < i ==>
                         && plan.actions[k].artifact in records
                         && records[plan.actions[k].artifact] == plan.actions[k].expected
                         && plan.actions[k].expected.state != Verified
                         && plan.actions[k].expected.lifecycle.holds == {}
      {
        var a := plan.actions[i];
        if a.artifact !in records || records[a.artifact] != a.expected || a.expected.state == Verified
           || a.expected.lifecycle.holds != {} {
          admitted := false;
        }
        i := i + 1;
      }
      if !admitted {
        return;
      }
      ghost var after := TombstoneAll(records, plan);
      var todo := PlanArtifacts(plan);
      while todo != {}
        invariant todo <= PlanArtifacts(plan) <= records.Keys
        invariant Halfway(old(records), after, todo, records)
        decreases todo
      {
        var a := NextOf(todo);
        records := records[a := Marked(records[a], Tombstoned, TombstoneFor(plan, a))];
        todo := todo - {a};
      }
      HalfwayDone(old(records), after, records);
    }

    /** Ask each connector in turn; an artifact fails with any of its actions, and is limited by any weak one. */
    static method Dispatch(plan: Plan, now: int, evidence: seq<Evidence>)
      returns (failed: set<ArtifactId>, limited: set<ArtifactId>)
      requires |evidence| == |plan.actions|
      ensures failed == FailedArtifacts(plan, now, evidence)
      ensures limited == LimitedArtifacts(plan, now, evidence)
    {
      failed, limited := {}, {};
      var i := 0;
      while i < |plan.actions|
        invariant 0 <= i <= |plan.actions|
        invariant failed == set k | 0 <= k < i && !Proven(plan.actions[k], plan, now, evidence[k])
                              :: plan.actions[k].artifact
        invariant limited == set k | 0 <= k < i && Proven(plan.actions[k], plan, now, evidence[k])
                                   && !Strong(plan.actions[k], now) :: plan.actions[k].artifact
      {
        var a := plan.actions[i];
        match evidence[i] {
          case ConnectorMissing => failed := failed + {a.artifact};
          case TombstoneRaised => failed := failed + {a.artifact};
          case Deleted(receipt, verification) =>
            if receipt.None? || !ValidReceipt(a, plan, now, receipt.value) {
              failed := failed + {a.artifact};
            } else if verification.None? || !ValidVerification(a, plan, receipt.value, verification.value) {
              failed := failed + {a.artifact};
            } else if !Strong(a, now) {
              limited := limited + {a.artifact};
            }
        }
        i := i + 1;
      }
    }

    /** Second locked section: record the outcome of every planned artifact. */
    method Finalise(plan: Plan, now: int, evidence: seq<Evidence>, failed: set<ArtifactId>, limited: set<ArtifactId>)
      requires |evidence| == |plan.actions| && PlanArtifacts(plan) <= records.Keys
      requires failed == FailedArtifacts(plan, now, evidence) && limited == LimitedArtifacts(plan, now, evidence)
      modifies this`records
      ensures records == FinaliseAll(old(records), plan, now, evidence)
    {
      ghost var after := FinaliseAll(records, plan, now, evidence);
      var todo := PlanArtifacts(plan);
      while todo != {}
        invariant todo <= PlanArtifacts(plan) <= records.Keys
        invariant Halfway(old(records), after, todo, records)
        decreases todo
      {
        var a := NextOf(todo);
        var r := records[a];
        var t := if r.tombstone.Some? then r.tombstone.value else TombstoneFor(plan, a);
        if a in failed {
          records := records[a := Marked(r, Failed, t)];
        } else if a !in limited {
          records := records[a := Marked(r, Verified, t)];
        }
        todo := todo - {a};
      }
      HalfwayDone(old(records), after, records);
    }

    /** A whole execution that no other one overlaps. `evidence` is what the connector of each action returned. */
    method ExecuteDeletion(plan: Plan, now: int, evidence: seq<Evidence>) returns (allowed: bool)
      requires |evidence| == |plan.actions|
      modifies this`records
      ensures if ExecutionAdmitted(old(records), plan, now) then
                && records == FinaliseAll(TombstoneAll(old(records), plan), plan, now, evidence)
                && (allowed <==> ExecutionAllows(plan, now, evidence))
              else
                records == old(records) && !allowed
    {
      var admitted := Tombstone(plan, now);
      if !admitted {
        return false;
      }
      var failed, limited := Dispatch(plan, now, evidence);
      assert PlanArtifacts(plan) <= records.Keys;
      Finalise(plan, now, evidence, failed, limited);
      allowed := failed == {} && limited == {} && plan.held == {};
    }
  }
}
