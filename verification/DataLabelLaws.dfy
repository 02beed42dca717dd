/** The algebra of label joins, and their agreement with the guard. */
module DataLabelLaws {
  import opened Wrappers
  import opened LifecycleModel
  import opened DataLabelModel

  /******* Restrictions form a semilattice *******/

  lemma StrictBothWays(x: Restrictions, y: Restrictions)
    requires AsStrict(x, y) && AsStrict(y, x)
    ensures x == y
  {
  }

  predicate AsStrictAsAll(x: Restrictions, rs: seq<Restrictions>) {
    forall i :: 0 <= i < |rs| ==> AsStrict(x, rs[i])
  }

  lemma AllButLast(x: Restrictions, rs: seq<Restrictions>)
    requires rs != []
    ensures AsStrictAsAll(x, rs) <==> AsStrictAsAll(x, rs[..|rs| - 1]) && AsStrict(x, rs[|rs| - 1])
  {
    if AsStrictAsAll(x, rs[..|rs| - 1]) && AsStrict(x, rs[|rs| - 1]) {
      forall i | 0 <= i < |rs| ensures AsStrict(x, rs[i]) {
        if i < |rs| - 1 { assert rs[..|rs| - 1][i] == rs[i]; }
      }
    }
  }

  /** The combined restrictions are the least strict that are as strict as every one of them. */
  lemma {:induction false} CombinedIsLeast(x: Restrictions, rs: seq<Restrictions>)
    requires rs != []
    ensures AsStrict(x, Combined(rs)) <==> AsStrictAsAll(x, rs)
  {
    if |rs| > 1 {
      CombinedIsLeast(x, rs[..|rs| - 1]);
      AllButLast(x, rs);
    }
  }

  lemma CombinedBounds(rs: seq<Restrictions>, i: nat)
    requires i < |rs|
    ensures AsStrict(Combined(rs), rs[i])
  {
    CombinedIsLeast(Combined(rs), rs);
  }

  /** Two lists each of whose members occurs in the other combine alike. */
  lemma SameMembersCombineAlike(rs: seq<Restrictions>, ts: seq<Restrictions>)
    requires rs != [] && ts != []
    requires forall i :: 0 <= i < |rs| ==> rs[i] in ts
    requires forall i :: 0 <= i < |ts| ==> ts[i] in rs
    ensures Combined(rs) == Combined(ts)
  {
    CombinedCovers(rs, ts);
    CombinedCovers(ts, rs);
    StrictBothWays(Combined(rs), Combined(ts));
  }

  lemma CombinedCovers(rs: seq<Restrictions>, ts: seq<Restrictions>)
    requires rs != [] && ts != [] && forall i :: 0 <= i < |ts| ==> ts[i] in rs
    ensures AsStrict(Combined(rs), Combined(ts))
  {
    forall i | 0 <= i < |ts| ensures AsStrict(Combined(rs), ts[i]) {
      var j :| 0 <= j < |rs| && rs[j] == ts[i];
      CombinedBounds(rs, j);
    }
    CombinedIsLeast(Combined(rs), ts);
  }

  /******* A join passes the guard *******/

  lemma JoinNotDowngraded(signer: Signer, keys: Keys, q: JoinRequest, now: int)
    requires q.sources != [] && Join(signer, keys, q, now).Some?
    ensures NotDowngraded(Join(signer, keys, q, now).value, q.sources)
  {
    forall i | 0 <= i < |q.sources|
      ensures AsStrict(Combined(RestrictionsOf(q.sources)), q.sources[i].restrictions)
    {
      CombinedBounds(RestrictionsOf(q.sources), i);
    }
  }

  /** A joined label passes the lineage check against its own sources whenever they still verify. */
  lemma JoinPassesGuard(signer: Signer, keys: Keys, q: JoinRequest, now: int, guardKeys: Keys, later: int)
    requires q.sources != [] && Join(signer, keys, q, now).Some?
    requires forall i :: 0 <= i < |q.sources| ==> Verifies(guardKeys, q.sources[i], later)
    ensures LineageOk(guardKeys, Join(signer, keys, q, now).value, q.sources, later)
  {
    JoinNotDowngraded(signer, keys, q, now);
  }

  /** And it verifies itself for as long as its sources do and its signer is trusted for their tenant. */
  lemma JoinVerifies(signer: Signer, keys: Keys, q: JoinRequest, now: int, guardKeys: Keys, later: int)
    requires q.sources != [] && Join(signer, keys, q, now).Some? && now <= later
    requires forall i :: 0 <= i < |q.sources| ==> Verifies(guardKeys, q.sources[i], later)
    requires signer.keyId in guardKeys && KeyActive(guardKeys[signer.keyId], later)
    requires guardKeys[signer.keyId].issuer == signer.issuer && signer.tenants <= guardKeys[signer.keyId].tenants
    ensures Verifies(guardKeys, Join(signer, keys, q, now).value, later)
  {
    var rs := RestrictionsOf(q.sources);
    CombinedRetention(rs);
    var i :| 0 <= i < |rs| && Combined(rs).retentionUntil == rs[i].retentionUntil;
    assert Verifies(guardKeys, q.sources[i], later);
  }

  lemma {:induction false} CombinedRetention(rs: seq<Restrictions>)
    requires rs != []
    ensures exists i :: 0 <= i < |rs| && Combined(rs).retentionUntil == rs[i].retentionUntil
  {
    if |rs| == 1 {
      assert Combined(rs).retentionUntil == rs[0].retentionUntil;
    } else {
      var front := rs[..|rs| - 1];
      CombinedRetention(front);
      var i :| 0 <= i < |front| && Combined(front).retentionUntil == front[i].retentionUntil;
      assert rs[i] == front[i];
      assert Combined(rs).retentionUntil in {rs[i].retentionUntil, rs[|rs| - 1].retentionUntil};
    }
  }

  /** Of all labels the guard accepts over these sources, none is less strict than the joined one. */
  lemma JoinIsLeastStrict(signer: Signer, keys: Keys, q: JoinRequest, now: int, other: Label)
    requires q.sources != [] && Join(signer, keys, q, now).Some? && NotDowngraded(other, q.sources)
    ensures AsStrict(other.restrictions, Join(signer, keys, q, now).value.restrictions)
    ensures other.tenant == Join(signer, keys, q, now).value.tenant
  {
    assert forall i :: 0 <= i < |q.sources| ==> RestrictionsOf(q.sources)[i] == q.sources[i].restrictions;
    CombinedIsLeast(other.restrictions, RestrictionsOf(q.sources));
  }

  /******* Order *******/

  /** The order in which sources are supplied changes nothing of the joined label, nor whether there is one. */
  lemma JoinIgnoresOrder(signer: Signer, keys: Keys, q: JoinRequest, t: JoinRequest, now: int)
    requires q.sources != [] && t == q.(sources := t.sources) && multiset(q.sources) == multiset(t.sources)
    ensures t.sources != []
    ensures Join(signer, keys, t, now) == Join(signer, keys, q, now)
  {
    Shuffled(q.sources, t.sources);
    Shuffled(t.sources, q.sources);
    SameMembersCombineAlike(RestrictionsOf(q.sources), RestrictionsOf(t.sources));
    if JoinOk(signer, keys, q, now) { ShuffledOk(signer, keys, q, t, now); }
    if JoinOk(signer, keys, t, now) { ShuffledOk(signer, keys, t, q, now); }
    assert SetOf(q.sources) == SetOf(t.sources);
  }

  lemma Shuffled(xs: seq<Label>, ys: seq<Label>)
    requires xs != [] && multiset(xs) == multiset(ys)
    ensures ys != [] && (Distinct(xs) ==> Distinct(ys))
    ensures forall i :: 0 <= i < |xs| ==> xs[i] in ys && RestrictionsOf(xs)[i] in RestrictionsOf(ys)
  {
    assert xs[0] in multiset(ys);
    forall i | 0 <= i < |xs| ensures xs[i] in ys && RestrictionsOf(xs)[i] in RestrictionsOf(ys) {
      assert xs[i] in multiset(ys);
      var j :| 0 <= j < |ys| && ys[j] == xs[i];
      assert RestrictionsOf(ys)[j] == RestrictionsOf(xs)[i];
    }
    if Distinct(xs) { DistinctShuffled(xs, ys); }
  }

  lemma ShuffledOk(signer: Signer, keys: Keys, q: JoinRequest, t: JoinRequest, now: int)
    requires q.sources != [] && t.sources != [] && t == q.(sources := t.sources)
    requires Distinct(q.sources) ==> Distinct(t.sources)
    requires forall i :: 0 <= i < |t.sources| ==> t.sources[i] in q.sources
    requires Combined(RestrictionsOf(q.sources)) == Combined(RestrictionsOf(t.sources))
    requires JoinOk(signer, keys, q, now)
    ensures JoinOk(signer, keys, t, now) && t.sources[0].tenant == q.sources[0].tenant
  {
    forall i | 0 <= i < |t.sources|
      ensures Verifies(keys, t.sources[i], now) && t.sources[i].tenant == q.sources[0].tenant
    {
      var j :| 0 <= j < |q.sources| && q.sources[j] == t.sources[i];
    }
  }

  /******* Nesting *******/

  /** How a label came about: an origin, or the join of other labels. */
  datatype Derivation = Origin(origin: Label) | Joined(result: Label, from: seq<Derivation>)
  {
    function Label(): Label {
      if Origin? then origin else result
    }

    /** The origins below, left to right. */
    function Origins(): seq<Label> {
      if Origin? then [origin] else OriginsOf(from)
    }
  }

  function OriginsOf(ds: seq<Derivation>): seq<Label> {
    if ds == [] then [] else OriginsOf(ds[..|ds| - 1]) + ds[|ds| - 1].Origins()
  }

  function LabelsOf(ds: seq<Derivation>): (r: seq<Label>)
    ensures |r| == |ds|
  {
    seq(|ds|, i requires 0 <= i < |ds| => ds[i].Label())
  }

  /** Every joined label in the tree is what a successful join gave, at some time and under some keys. */
  ghost predicate Faithful(d: Derivation) {
    d.Joined? ==>
      && d.from != []
      && (exists signer, keys, q: JoinRequest, now ::
            q.sources == LabelsOf(d.from) && Join(signer, keys, q, now) == Some(d.result))
      && forall i :: 0 <= i < |d.from| ==> Faithful(d.from[i])
  }

  lemma JoinedRestrictions(d: Derivation)
    requires d.Joined? && Faithful(d)
    ensures d.result.restrictions == Combined(RestrictionsOf(LabelsOf(d.from)))
    ensures OneTenant(LabelsOf(d.from), d.result.tenant)
  {
  }

  lemma {:induction false} OriginsCover(ds: seq<Derivation>, i: nat)
    requires i < |ds|
    ensures forall l :: l in ds[i].Origins() ==> l in OriginsOf(ds)
  {
    if i < |ds| - 1 {
      OriginsCover(ds[..|ds| - 1], i);
      assert ds[..|ds| - 1][i] == ds[i];
    }
  }

  lemma {:induction false} OriginComesFrom(ds: seq<Derivation>, l: Label)
    requires l in OriginsOf(ds)
    ensures exists i :: 0 <= i < |ds| && l in ds[i].Origins()
  {
    var last := |ds| - 1;
    if l !in ds[last].Origins() {
      OriginComesFrom(ds[..last], l);
      var i :| 0 <= i < |ds[..last]| && l in ds[..last][i].Origins();
      assert ds[..last][i] == ds[i];
    }
  }

  /** As strict as a label is as strict as every origin below it. */
  lemma {:induction false} StrictAsOrigins(d: Derivation, x: Restrictions)
    requires Faithful(d)
    ensures d.Origins() != []
    ensures AsStrict(x, d.Label().restrictions) <==> forall l :: l in d.Origins() ==> AsStrict(x, l.restrictions)
    decreases d
  {
    if d.Joined? {
      var labels := LabelsOf(d.from);
      var rs := RestrictionsOf(labels);
      JoinedRestrictions(d);
      CombinedIsLeast(x, rs);
      forall i | 0 <= i < |d.from|
        ensures d.from[i].Origins() != []
        ensures AsStrict(x, rs[i]) <==> forall l :: l in d.from[i].Origins() ==> AsStrict(x, l.restrictions)
        ensures forall l :: l in d.from[i].Origins() ==> l in d.Origins()
      {
        StrictAsOrigins(d.from[i], x);
        OriginsCover(d.from, i);
        assert rs[i] == d.from[i].Label().restrictions;
      }
      assert d.from[0].Origins()[0] in d.Origins();
      forall l | l in d.Origins() ensures exists i :: 0 <= i < |d.from| && l in d.from[i].Origins() {
        OriginComesFrom(d.from, l);
      }
    }
  }

  /** A chain of joins of any shape is as strict as every one of its transitive origins. */
  lemma ChainKeepsOrigins(d: Derivation, l: Label)
    requires Faithful(d) && l in d.Origins()
    ensures AsStrict(d.Label().restrictions, l.restrictions)
  {
    StrictAsOrigins(d, d.Label().restrictions);
  }

  /** However joins are nested, the restrictions are those of one flat join of the origins. */
  lemma NestedIsFlat(d: Derivation)
    requires Faithful(d)
    ensures d.Origins() != []
    ensures d.Label().restrictions == Combined(RestrictionsOf(d.Origins()))
  {
    var origins := d.Origins();
    var r := d.Label().restrictions;
    StrictAsOrigins(d, r);
    var flat := Combined(RestrictionsOf(origins));
    StrictAsOrigins(d, flat);
    forall l | l in origins ensures AsStrict(flat, l.restrictions) {
      var i :| 0 <= i < |origins| && origins[i] == l;
      CombinedBounds(RestrictionsOf(origins), i);
    }
    forall i | 0 <= i < |origins| ensures AsStrict(r, RestrictionsOf(origins)[i]) {
      assert origins[i] in origins;
    }
    CombinedIsLeast(r, RestrictionsOf(origins));
    StrictBothWays(r, flat);
  }

  /** So two nestings over the same origins that both succeed agree, as do a nested and a flat join. */
  lemma NestingsAgree(d: Derivation, e: Derivation)
    requires Faithful(d) && Faithful(e)
    requires forall l :: l in d.Origins() <==> l in e.Origins()
    ensures d.Label().restrictions == e.Label().restrictions
  {
    StrictAsOrigins(d, d.Label().restrictions);
    StrictAsOrigins(e, d.Label().restrictions);
    StrictAsOrigins(d, e.Label().restrictions);
    StrictAsOrigins(e, e.Label().restrictions);
    StrictBothWays(d.Label().restrictions, e.Label().restrictions);
  }
}
