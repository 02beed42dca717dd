/** Joining labels and checking their lineage, with the loops that compute the common restrictions. */
module DataLabels {
  import opened Wrappers
  import opened LifecycleModel
  import opened DataLabelModel
  import opened DataLabelLaws

  predicate InAll(x: int, labels: seq<Label>, part: Restrictions -> set<int>) {
    forall i :: 0 <= i < |labels| ==> x in part(labels[i].restrictions)
  }

  predicate InSome(x: int, labels: seq<Label>, part: Restrictions -> set<int>) {
    exists i :: 0 <= i < |labels| && x in part(labels[i].restrictions)
  }

  lemma InAllGrows(x: int, labels: seq<Label>, part: Restrictions -> set<int>, k: nat)
    requires k < |labels|
    ensures InAll(x, labels[..k + 1], part)
            <==> InAll(x, labels[..k], part) && x in part(labels[k].restrictions)
    ensures InSome(x, labels[..k + 1], part)
            <==> InSome(x, labels[..k], part) || x in part(labels[k].restrictions)
  {
    var longer := labels[..k + 1];
    assert longer == labels[..k] + [labels[k]];
    assert longer[k] == labels[k];
    forall i | 0 <= i < k ensures longer[i] == labels[..k][i] {
    }
    if InAll(x, longer, part) {
      assert forall i :: 0 <= i < k ==> x in part(longer[i].restrictions);
    }
  }

  /** What every label has in one part of its restrictions. */
  method Intersection(labels: seq<Label>, part: Restrictions -> set<int>) returns (common: set<int>)
    requires labels != []
    ensures forall x :: x in common <==> InAll(x, labels, part)
  {
    common := part(labels[0].restrictions);
    var k := 1;
    while k < |labels|
      invariant 1 <= k <= |labels|
      invariant forall x :: x in common <==> InAll(x, labels[..k], part)
    {
      forall x { InAllGrows(x, labels, part, k); }
      common := common * part(labels[k].restrictions);
      k := k + 1;
    }
    assert labels[..k] == labels;
  }

  /** What some label has in one part of its restrictions. */
  method Union(labels: seq<Label>, part: Restrictions -> set<int>) returns (all: set<int>)
    ensures forall x :: x in all <==> InSome(x, labels, part)
  {
    all := {};
    var k := 0;
    while k < |labels|
      invariant 0 <= k <= |labels|
      invariant forall x :: x in all <==> InSome(x, labels[..k], part)
    {
      forall x { InAllGrows(x, labels, part, k); }
      all := all + part(labels[k].restrictions);
      k := k + 1;
    }
    assert labels[..k] == labels;
  }

  method Highest(labels: seq<Label>) returns (top: Classification)
    requires labels != []
    ensures exists i :: 0 <= i < |labels| && labels[i].restrictions.classification == top
    ensures forall i :: 0 <= i < |labels| ==> labels[i].restrictions.classification.Rank() <= top.Rank()
  {
    top := labels[0].restrictions.classification;
    var k := 1;
    while k < |labels|
      invariant 1 <= k <= |labels|
      invariant exists i :: 0 <= i < k && labels[i].restrictions.classification == top
      invariant forall i :: 0 <= i < k ==> labels[i].restrictions.classification.Rank() <= top.Rank()
    {
      if labels[k].restrictions.classification.Rank() > top.Rank() {
        top := labels[k].restrictions.classification;
      }
      k := k + 1;
    }
  }

  method Earliest(labels: seq<Label>) returns (deadline: int)
    requires labels != []
    ensures exists i :: 0 <= i < |labels| && labels[i].restrictions.retentionUntil == deadline
    ensures forall i :: 0 <= i < |labels| ==> deadline <= labels[i].restrictions.retentionUntil
  {
    deadline := labels[0].restrictions.retentionUntil;
    var k := 1;
    while k < |labels|
      invariant 1 <= k <= |labels|
      invariant exists i :: 0 <= i < k && labels[i].restrictions.retentionUntil == deadline
      invariant forall i :: 0 <= i < k ==> deadline <= labels[i].restrictions.retentionUntil
    {
      if labels[k].restrictions.retentionUntil < deadline {
        deadline := labels[k].restrictions.retentionUntil;
      }
      k := k + 1;
    }
  }

  /** Each part of `r` is exactly what the labels have in common there, or what some of them demands. */
  ghost predicate PartByPart(r: Restrictions, labels: seq<Label>) {
    && (exists i :: 0 <= i < |labels| && labels[i].restrictions.classification == r.classification)
    && (forall i :: 0 <= i < |labels| ==> labels[i].restrictions.classification.Rank() <= r.classification.Rank())
    && (exists i :: 0 <= i < |labels| && labels[i].restrictions.retentionUntil == r.retentionUntil)
    && (forall i :: 0 <= i < |labels| ==> r.retentionUntil <= labels[i].restrictions.retentionUntil)
    && (forall x :: x in r.purposes <==> InAll(x, labels, (t: Restrictions) => t.purposes))
    && (forall x :: x in r.residencies <==> InAll(x, labels, (t: Restrictions) => t.residencies))
    && (forall x :: x in r.destinations <==> InAll(x, labels, (t: Restrictions) => t.destinations))
    && (forall x :: x in r.boundaries <==> InAll(x, labels, (t: Restrictions) => t.boundaries))
    && (forall x :: x in r.handling <==> InSome(x, labels, (t: Restrictions) => t.handling))
  }

  lemma CommonWithin(common: set<int>, labels: seq<Label>, part: Restrictions -> set<int>, i: nat)
    requires i < |labels| && forall x :: x in common ==> InAll(x, labels, part)
    ensures common <= part(labels[i].restrictions)
  {
    forall x | x in common ensures x in part(labels[i].restrictions) {
      assert InAll(x, labels, part);
    }
  }

  lemma InCommon(some: set<int>, common: set<int>, labels: seq<Label>, part: Restrictions -> set<int>)
    requires forall i :: 0 <= i < |labels| ==> some <= part(labels[i].restrictions)
    requires forall x :: InAll(x, labels, part) ==> x in common
    ensures some <= common
  {
    forall x | x in some ensures x in common {
      assert InAll(x, labels, part);
    }
  }

  lemma DemandedIn(all: set<int>, some: set<int>, labels: seq<Label>, part: Restrictions -> set<int>)
    requires forall i :: 0 <= i < |labels| ==> part(labels[i].restrictions) <= some
    requires forall x :: x in all ==> InSome(x, labels, part)
    ensures all <= some
  {
    forall x | x in all ensures x in some {
      assert InSome(x, labels, part);
    }
  }

  lemma DemandedWithin(all: set<int>, labels: seq<Label>, part: Restrictions -> set<int>, i: nat)
    requires i < |labels| && forall x :: InSome(x, labels, part) ==> x in all
    ensures part(labels[i].restrictions) <= all
  {
    forall x | x in part(labels[i].restrictions) ensures x in all {
      assert InSome(x, labels, part);
    }
  }

  lemma PartsBound(r: Restrictions, labels: seq<Label>, i: nat)
    requires i < |labels| && PartByPart(r, labels)
    ensures AsStrict(r, labels[i].restrictions)
  {
    CommonWithin(r.purposes, labels, (t: Restrictions) => t.purposes, i);
    CommonWithin(r.residencies, labels, (t: Restrictions) => t.residencies, i);
    CommonWithin(r.destinations, labels, (t: Restrictions) => t.destinations, i);
    CommonWithin(r.boundaries, labels, (t: Restrictions) => t.boundaries, i);
    DemandedWithin(r.handling, labels, (t: Restrictions) => t.handling, i);
  }

  /** Anything as strict as every label is as strict as its parts put together. */
  lemma PartsLeast(z: Restrictions, r: Restrictions, labels: seq<Label>)
    requires PartByPart(r, labels)
    requires forall i :: 0 <= i < |labels| ==> AsStrict(z, labels[i].restrictions)
    ensures AsStrict(z, r)
  {
    InCommon(z.purposes, r.purposes, labels, (t: Restrictions) => t.purposes);
    InCommon(z.residencies, r.residencies, labels, (t: Restrictions) => t.residencies);
    InCommon(z.destinations, r.destinations, labels, (t: Restrictions) => t.destinations);
    InCommon(z.boundaries, r.boundaries, labels, (t: Restrictions) => t.boundaries);
    DemandedIn(r.handling, z.handling, labels, (t: Restrictions) => t.handling);
  }

  lemma PartsAreCombined(r: Restrictions, labels: seq<Label>)
    requires labels != [] && PartByPart(r, labels)
    ensures r == Combined(RestrictionsOf(labels))
  {
    var rs := RestrictionsOf(labels);
    var all := Combined(rs);
    forall i | 0 <= i < |labels|
      ensures AsStrict(r, labels[i].restrictions) && AsStrict(all, labels[i].restrictions)
    {
      CombinedBounds(rs, i);
      PartsBound(r, labels, i);
    }
    CombinedIsLeast(r, rs);
    PartsLeast(all, r, labels);
    StrictBothWays(r, all);
  }

  method Restrict(labels: seq<Label>) returns (r: Restrictions)
    requires labels != []
    ensures r == Combined(RestrictionsOf(labels))
  {
    var purposes := Intersection(labels, (t: Restrictions) => t.purposes);
    var residencies := Intersection(labels, (t: Restrictions) => t.residencies);
    var destinations := Intersection(labels, (t: Restrictions) => t.destinations);
    var boundaries := Intersection(labels, (t: Restrictions) => t.boundaries);
    var handling := Union(labels, (t: Restrictions) => t.handling);
    var classification := Highest(labels);
    var deadline := Earliest(labels);
    r := Restrictions(classification, purposes, residencies, destinations, boundaries, handling, deadline);
    PartsAreCombined(r, labels);
  }

  method AllVerify(keys: Keys, labels: seq<Label>, now: int) returns (ok: bool)
    ensures ok <==> forall i :: 0 <= i < |labels| ==> Verifies(keys, labels[i], now)
  {
    ok := true;
    var k := 0;
    while k < |labels|
      invariant 0 <= k <= |labels|
      invariant ok <==> forall i :: 0 <= i < k ==> Verifies(keys, labels[i], now)
    {
      if !Verifies(keys, labels[k], now) {
        ok := false;
      }
      k := k + 1;
    }
  }

  lemma {:induction false} DistinctIffSetSize(labels: seq<Label>)
    ensures |SetOf(labels)| <= |labels|
    ensures Distinct(labels) <==> |SetOf(labels)| == |labels|
  {
    if labels == [] {
      assert SetOf(labels) == {};
    } else {
      var last := labels[|labels| - 1];
      var front := labels[..|labels| - 1];
      DistinctIffSetSize(front);
      assert SetOf(labels) == SetOf(front) + {last} by {
        forall l | l in SetOf(labels) ensures l in SetOf(front) + {last} {
          var i :| 0 <= i < |labels| && labels[i] == l;
          if i < |front| { assert front[i] == l; }
        }
        forall l | l in SetOf(front) + {last} ensures l in SetOf(labels) {
          if l in SetOf(front) {
            var i :| 0 <= i < |front| && front[i] == l;
            assert labels[i] == l;
          }
        }
      }
      DistinctGrows(front, last);
      assert labels == front + [last];
    }
  }

  lemma DistinctGrows(front: seq<Label>, last: Label)
    ensures Distinct(front + [last]) <==> Distinct(front) && last !in SetOf(front)
  {
    var longer := front + [last];
    if Distinct(longer) {
      forall i, j | 0 <= i < j < |front| ensures front[i] != front[j] {
        assert longer[i] != longer[j];
      }
      forall i | 0 <= i < |front| ensures front[i] != last {
        assert longer[i] != longer[|front|];
      }
    }
  }

  /** Create the strictest label over all sources, or none when anything stands against it. */
  method JoinLabels(signer: Signer, keys: Keys, q: JoinRequest, now: int) returns (derived: Option<Label>)
    requires q.sources != []
    ensures derived == Join(signer, keys, q, now)
  {
    var ok := AllVerify(keys, q.sources, now);
    DistinctIffSetSize(q.sources);
    if |SetOf(q.sources)| != |q.sources| {
      ok := false;
    }
    if !OneTenant(q.sources, q.sources[0].tenant) || q.sources[0].tenant !in signer.tenants {
      ok := false;
    }
    var r := Restrict(q.sources);
    if r.purposes == {} || r.residencies == {} || r.destinations == {} || r.boundaries == {} {
      ok := false;
    }
    if q.issuedAt > now || q.issuedAt >= r.retentionUntil {
      ok := false;
    }
    if !ok {
      return None;
    }
    return Some(Label(q.content, signer.issuer, signer.keyId, q.sources[0].tenant, r, SetOf(q.sources), q.issuedAt, true));
  }

  /** Compare with the common restrictions of all sources; the result says how the label stands to each. */
  method DowngradeFree(l: Label, sources: seq<Label>) returns (ok: bool)
    ensures ok <==> NotDowngraded(l, sources)
  {
    if sources == [] {
      return true;
    }
    ok := OneTenant(sources, l.tenant);
    var r := Restrict(sources);
    CombinedIsLeast(l.restrictions, RestrictionsOf(sources));
    assert AsStrictAsAll(l.restrictions, RestrictionsOf(sources))
      <==> forall i :: 0 <= i < |sources| ==> AsStrict(l.restrictions, sources[i].restrictions) by {
      assert forall i :: 0 <= i < |sources| ==> RestrictionsOf(sources)[i] == sources[i].restrictions;
    }
    if l.restrictions.classification.Rank() < r.classification.Rank()
       || !(l.restrictions.purposes <= r.purposes) || !(l.restrictions.residencies <= r.residencies)
       || !(l.restrictions.destinations <= r.destinations) || !(l.restrictions.boundaries <= r.boundaries)
       || !(r.handling <= l.restrictions.handling) || l.restrictions.retentionUntil > r.retentionUntil {
      ok := false;
    }
  }

  /** The guard's lineage check: all sources verify, are exactly those declared, and none is weakened. */
  method LineageAllowed(keys: Keys, l: Label, sources: seq<Label>, now: int) returns (ok: bool)
    ensures ok <==> LineageOk(keys, l, sources, now)
  {
    if l.sources != {} && sources == [] {
      assert SetOf(sources) == {};
      return false;
    }
    if l.sources == {} && sources != [] {
      assert sources[0] in SetOf(sources);
      return false;
    }
    ok := AllVerify(keys, sources, now);
    DistinctIffSetSize(sources);
    if |SetOf(sources)| != |sources| || SetOf(sources) != l.sources {
      ok := false;
    }
    var free := DowngradeFree(l, sources);
    ok := ok && free;
  }
}
