/** Exactly which labels are trusted, joined and accepted, in terms of the labels and keys themselves. */
module DataLabelDecisions {
  import opened Wrappers
  import opened LifecycleModel
  import opened DataLabelModel
  import opened DataLabelLaws

  /** Signed with a key of its issuer for its tenant that is in force now, and within its own time. */
  predicate Trusted(keys: Keys, l: Label, now: int) {
    && l.signed && l.keyId in keys
    && var key := keys[l.keyId];
       && key.issuer == l.issuer && l.tenant in key.tenants
       && key.revoked == false
       && (key.activeFrom == None || key.activeFrom.value <= now)
       && (key.expiresAt == None || now < key.expiresAt.value)
       && l.issuedAt <= now && now < l.restrictions.retentionUntil
  }

  lemma VerifiesMeansTrusted(keys: Keys, l: Label, now: int)
    ensures Verifies(keys, l, now) <==> Trusted(keys, l, now)
  {
  }

  /******* The parts of combined restrictions *******/

  predicate InEach(x: int, parts: seq<set<int>>) {
    forall i :: 0 <= i < |parts| ==> x in parts[i]
  }

  /** Exactly what every part has. */
  ghost predicate Common(s: set<int>, parts: seq<set<int>>) {
    forall x :: x in s <==> InEach(x, parts)
  }

  function Purposes(rs: seq<Restrictions>): seq<set<int>> {
    seq(|rs|, i requires 0 <= i < |rs| => rs[i].purposes)
  }

  function Residencies(rs: seq<Restrictions>): seq<set<int>> {
    seq(|rs|, i requires 0 <= i < |rs| => rs[i].residencies)
  }

  function Destinations(rs: seq<Restrictions>): seq<set<int>> {
    seq(|rs|, i requires 0 <= i < |rs| => rs[i].destinations)
  }

  function Boundaries(rs: seq<Restrictions>): seq<set<int>> {
    seq(|rs|, i requires 0 <= i < |rs| => rs[i].boundaries)
  }

  /** `r` has in each part just what all of `rs` have, or, of handling duties, what any has; the latest class, the earliest end. */
  ghost predicate PartsOf(r: Restrictions, rs: seq<Restrictions>) {
    && Common(r.purposes, Purposes(rs)) && Common(r.residencies, Residencies(rs))
    && Common(r.destinations, Destinations(rs)) && Common(r.boundaries, Boundaries(rs))
    && (forall x :: x in r.handling <==> exists i :: 0 <= i < |rs| && x in rs[i].handling)
    && (forall i :: 0 <= i < |rs| ==> rs[i].classification.Rank() <= r.classification.Rank())
    && (exists i :: 0 <= i < |rs| && rs[i].classification == r.classification)
    && (forall i :: 0 <= i < |rs| ==> r.retentionUntil <= rs[i].retentionUntil)
    && (exists i :: 0 <= i < |rs| && rs[i].retentionUntil == r.retentionUntil)
  }

  lemma OneSet(s: set<int>)
    ensures Common(s, [s])
  {
    forall x ensures x in s <==> InEach(x, [s]) {
      if InEach(x, [s]) { assert x in [s][0]; }
    }
  }

  lemma OnePart(r: Restrictions)
    ensures PartsOf(r, [r])
  {
    OneSet(r.purposes);
    OneSet(r.residencies);
    OneSet(r.destinations);
    OneSet(r.boundaries);
    assert [r][0] == r;
    assert Purposes([r]) == [r.purposes] && Residencies([r]) == [r.residencies];
    assert Destinations([r]) == [r.destinations] && Boundaries([r]) == [r.boundaries];
  }

  lemma CommonGrows(s: set<int>, parts: seq<set<int>>, t: set<int>)
    requires Common(s, parts)
    ensures Common(s * t, parts + [t])
  {
    var longer := parts + [t];
    forall x ensures x in s * t <==> InEach(x, longer) {
      if InEach(x, longer) {
        assert longer[|parts|] == t;
        forall i | 0 <= i < |parts| ensures x in parts[i] { assert longer[i] == parts[i]; }
      }
    }
  }

  lemma PartsGrow(r: Restrictions, rs: seq<Restrictions>, x: Restrictions)
    requires PartsOf(r, rs)
    ensures PartsOf(Both(r, x), rs + [x])
  {
    var longer, both := rs + [x], Both(r, x);
    CommonGrows(r.purposes, Purposes(rs), x.purposes);
    CommonGrows(r.residencies, Residencies(rs), x.residencies);
    CommonGrows(r.destinations, Destinations(rs), x.destinations);
    CommonGrows(r.boundaries, Boundaries(rs), x.boundaries);
    assert Purposes(longer) == Purposes(rs) + [x.purposes] && Residencies(longer) == Residencies(rs) + [x.residencies];
    assert Destinations(longer) == Destinations(rs) + [x.destinations] && Boundaries(longer) == Boundaries(rs) + [x.boundaries];
    assert longer[|rs|] == x && forall i :: 0 <= i < |rs| ==> longer[i] == rs[i];
    forall z ensures z in both.handling <==> exists i :: 0 <= i < |longer| && z in longer[i].handling {
      if z in r.handling {
        var i :| 0 <= i < |rs| && z in rs[i].handling;
        assert z in longer[i].handling;
      }
      if z in x.handling { assert z in longer[|rs|].handling; }
    }
    var i :| 0 <= i < |rs| && rs[i].classification == r.classification;
    var j :| 0 <= j < |rs| && rs[j].retentionUntil == r.retentionUntil;
    assert longer[i].classification == r.classification && longer[j].retentionUntil == r.retentionUntil;
  }

  /** The combined restrictions, part by part. */
  lemma {:induction false} CombinedParts(rs: seq<Restrictions>)
    requires rs != []
    ensures PartsOf(Combined(rs), rs)
  {
    if |rs| == 1 {
      OnePart(rs[0]);
      assert rs == [rs[0]];
    } else {
      var front, x := rs[..|rs| - 1], rs[|rs| - 1];
      CombinedParts(front);
      PartsGrow(Combined(front), front, x);
      assert rs == front + [x];
    }
  }

  /******* Joining *******/

  /** Some purpose, residency, destination and boundary are allowed by every source. */
  ghost predicate Compatible(rs: seq<Restrictions>) {
    && (exists x :: InEach(x, Purposes(rs))) && (exists x :: InEach(x, Residencies(rs)))
    && (exists x :: InEach(x, Destinations(rs))) && (exists x :: InEach(x, Boundaries(rs)))
  }

  lemma CommonIsEmptyIff(s: set<int>, parts: seq<set<int>>)
    requires Common(s, parts)
    ensures s != {} <==> exists x :: InEach(x, parts)
  {
    if s != {} {
      var x := SomeElement(s);
      assert InEach(x, parts);
    }
  }

  lemma CompatibleIff(rs: seq<Restrictions>)
    requires rs != []
    ensures var r := Combined(rs);
            Compatible(rs) <==> r.purposes != {} && r.residencies != {} && r.destinations != {} && r.boundaries != {}
  {
    var r := Combined(rs);
    CombinedParts(rs);
    CommonIsEmptyIff(r.purposes, Purposes(rs));
    CommonIsEmptyIff(r.residencies, Residencies(rs));
    CommonIsEmptyIff(r.destinations, Destinations(rs));
    CommonIsEmptyIff(r.boundaries, Boundaries(rs));
  }

  /** The sources may be joined now by this signer. */
  ghost predicate Joinable(signer: Signer, keys: Keys, q: JoinRequest, now: int) {
    && (forall i :: 0 <= i < |q.sources| ==> Trusted(keys, q.sources[i], now))
    && (forall i, j :: 0 <= i < |q.sources| && 0 <= j < |q.sources| && i != j ==> q.sources[i] != q.sources[j])
    && (forall i :: 0 <= i < |q.sources| ==>
          q.sources[i].tenant == q.sources[0].tenant && q.sources[i].tenant in signer.tenants)
    && Compatible(RestrictionsOf(q.sources))
    && q.issuedAt <= now
    && forall i :: 0 <= i < |q.sources| ==> q.issuedAt < q.sources[i].restrictions.retentionUntil
  }

  lemma JoinableIff(signer: Signer, keys: Keys, q: JoinRequest, now: int)
    requires q.sources != []
    ensures JoinOk(signer, keys, q, now) <==> Joinable(signer, keys, q, now)
  {
    var rs := RestrictionsOf(q.sources);
    CombinedParts(rs);
    CompatibleIff(rs);
    forall i | 0 <= i < |q.sources| ensures Verifies(keys, q.sources[i], now) <==> Trusted(keys, q.sources[i], now) {
      VerifiesMeansTrusted(keys, q.sources[i], now);
    }
    forall i | 0 <= i < |q.sources| ensures Combined(rs).retentionUntil <= q.sources[i].restrictions.retentionUntil {
      assert rs[i] == q.sources[i].restrictions;
    }
    var k :| 0 <= k < |rs| && rs[k].retentionUntil == Combined(rs).retentionUntil;
    assert rs[k] == q.sources[k].restrictions;
    PairwiseIff(q.sources);
    if Joinable(signer, keys, q, now) { assert q.sources[0].tenant in signer.tenants; }
  }

  lemma PairwiseIff<T>(s: seq<T>)
    ensures Distinct(s) <==> forall i, j :: 0 <= i < |s| && 0 <= j < |s| && i != j ==> s[i] != s[j]
  {
  }

  /**
   A join succeeds exactly for trusted, different sources of one tenant of the signer that have something in
   common in every part and time left; its label names them and has their restrictions part by part.
   */
  lemma JoinedIff(signer: Signer, keys: Keys, q: JoinRequest, now: int)
    requires q.sources != []
    ensures var joined := Join(signer, keys, q, now);
            && (joined.Some? <==> Joinable(signer, keys, q, now))
            && (joined.Some? ==>
                  var l := joined.value;
                  && l.content == q.content && l.issuer == signer.issuer && l.keyId == signer.keyId && l.signed
                  && l.tenant == q.sources[0].tenant && l.issuedAt == q.issuedAt
                  && (forall x :: x in l.sources <==> x in q.sources)
                  && PartsOf(l.restrictions, RestrictionsOf(q.sources)))
  {
    JoinableIff(signer, keys, q, now);
    CombinedParts(RestrictionsOf(q.sources));
  }

  /******* The guard *******/

  /** `x` loosens no part of `y`. */
  predicate LoosensNothing(x: Restrictions, y: Restrictions) {
    && x.purposes <= y.purposes && x.residencies <= y.residencies
    && x.destinations <= y.destinations && x.boundaries <= y.boundaries
    && y.handling <= x.handling
    && x.retentionUntil <= y.retentionUntil
    && match y.classification
       case Public => true
       case Internal => x.classification != Public
       case Confidential => x.classification == Confidential || x.classification == Restricted
       case Restricted => x.classification == Restricted
  }

  lemma LoosensNothingIff(x: Restrictions, y: Restrictions)
    ensures AsStrict(x, y) <==> LoosensNothing(x, y)
  {
  }

  /**
   The guard accepts a label's lineage exactly when the sources presented are the ones it declares, without
   repetition, each trusted now, of its tenant, and loosened in nothing.
   */
  lemma LineageIff(keys: Keys, l: Label, sources: seq<Label>, now: int)
    ensures LineageOk(keys, l, sources, now) <==>
            && (forall x :: x in sources <==> x in l.sources)
            && (forall i, j :: 0 <= i < |sources| && 0 <= j < |sources| && i != j ==> sources[i] != sources[j])
            && forall i :: 0 <= i < |sources| ==>
                 && Trusted(keys, sources[i], now) && sources[i].tenant == l.tenant
                 && LoosensNothing(l.restrictions, sources[i].restrictions)
  {
    PairwiseIff(sources);
    forall x ensures x in SetOf(sources) <==> x in sources {
    }
    forall i | 0 <= i < |sources|
      ensures Verifies(keys, sources[i], now) <==> Trusted(keys, sources[i], now)
      ensures AsStrict(l.restrictions, sources[i].restrictions) <==> LoosensNothing(l.restrictions, sources[i].restrictions)
    {
      VerifiesMeansTrusted(keys, sources[i], now);
      LoosensNothingIff(l.restrictions, sources[i].restrictions);
    }
  }
}
