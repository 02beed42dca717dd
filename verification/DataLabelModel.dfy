/**
 Specification of classification labels: conservative joins, and the lineage check of the boundary guard.

 A label digest is injective, so a source digest is the source label itself; the digests of a label are
 unique and sorted, so they form a set. Whether a signature is valid is part of the label presented.
 */
module DataLabelModel {
  import opened Wrappers
  import opened LifecycleModel

  /******* Restrictions *******/

  datatype Restrictions = Restrictions(
    classification: Classification,
    purposes: set<int>,
    residencies: set<int>,
    destinations: set<int>,
    boundaries: set<int>,
    handling: set<int>,
    retentionUntil: int)

  /** `x` weakens no restriction of `y`. */
  predicate AsStrict(x: Restrictions, y: Restrictions) {
    && x.classification.Rank() >= y.classification.Rank()
    && x.purposes <= y.purposes
    && x.residencies <= y.residencies
    && x.destinations <= y.destinations
    && x.boundaries <= y.boundaries
    && x.handling >= y.handling
    && x.retentionUntil <= y.retentionUntil
  }

  function Both(x: Restrictions, y: Restrictions): Restrictions {
    Restrictions(
      if y.classification.Rank() > x.classification.Rank() then y.classification else x.classification,
      x.purposes * y.purposes,
      x.residencies * y.residencies,
      x.destinations * y.destinations,
      x.boundaries * y.boundaries,
      x.handling + y.handling,
      if y.retentionUntil < x.retentionUntil then y.retentionUntil else x.retentionUntil)
  }

  /** The restrictions of all together. */
  function Combined(rs: seq<Restrictions>): Restrictions
    requires rs != []
  {
    if |rs| == 1 then rs[0] else Both(Combined(rs[..|rs| - 1]), rs[|rs| - 1])
  }

  /******* Labels *******/

  datatype Label = Label(
    content: int,
    issuer: int,
    keyId: int,
    tenant: int,
    restrictions: Restrictions,
    sources: set<Label>,
    issuedAt: int,
    signed: bool)

  function RestrictionsOf(labels: seq<Label>): (r: seq<Restrictions>)
    ensures |r| == |labels|
  {
    seq(|labels|, i requires 0 <= i < |labels| => labels[i].restrictions)
  }

  datatype TrustedKey = TrustedKey(
    issuer: int, tenants: set<int>, activeFrom: Option<int>, expiresAt: Option<int>, revoked: bool)

  type Keys = map<int, TrustedKey>

  predicate KeyActive(key: TrustedKey, now: int) {
    && !key.revoked
    && (key.activeFrom.Some? ==> key.activeFrom.value <= now)
    && (key.expiresAt.Some? ==> now < key.expiresAt.value)
  }

  predicate Verifies(keys: Keys, l: Label, now: int) {
    && l.signed
    && l.keyId in keys
    && KeyActive(keys[l.keyId], now)
    && keys[l.keyId].issuer == l.issuer && l.tenant in keys[l.keyId].tenants
    && l.issuedAt <= now < l.restrictions.retentionUntil
  }

  function SetOf(labels: seq<Label>): set<Label> {
    set i | 0 <= i < |labels| :: labels[i]
  }

  predicate OneTenant(labels: seq<Label>, tenant: int) {
    forall i :: 0 <= i < |labels| ==> labels[i].tenant == tenant
  }

  /******* Joining *******/

  datatype Signer = Signer(issuer: int, keyId: int, tenants: set<int>)

  datatype JoinRequest = JoinRequest(content: int, sources: seq<Label>, issuedAt: int)

  predicate JoinOk(signer: Signer, keys: Keys, q: JoinRequest, now: int)
    requires q.sources != []
  {
    var r := Combined(RestrictionsOf(q.sources));
    && (forall i :: 0 <= i < |q.sources| ==> Verifies(keys, q.sources[i], now))
    && Distinct(q.sources)
    && OneTenant(q.sources, q.sources[0].tenant) && q.sources[0].tenant in signer.tenants
    && r.purposes != {} && r.residencies != {} && r.destinations != {} && r.boundaries != {}
    && q.issuedAt <= now && q.issuedAt < r.retentionUntil
  }

  function Join(signer: Signer, keys: Keys, q: JoinRequest, now: int): Option<Label>
    requires q.sources != []
  {
    if JoinOk(signer, keys, q, now) then
      Some(Label(q.content, signer.issuer, signer.keyId, q.sources[0].tenant, Combined(RestrictionsOf(q.sources)),
                 SetOf(q.sources), q.issuedAt, true))
    else
      None
  }

  /******* The guard's lineage check *******/

  /** No restriction of a source is weakened, and no tenant authority combined. */
  predicate NotDowngraded(l: Label, sources: seq<Label>) {
    && OneTenant(sources, l.tenant)
    && forall i :: 0 <= i < |sources| ==> AsStrict(l.restrictions, sources[i].restrictions)
  }

  predicate LineageOk(keys: Keys, l: Label, sources: seq<Label>, now: int) {
    && (forall i :: 0 <= i < |sources| ==> Verifies(keys, sources[i], now))
    && Distinct(sources) && SetOf(sources) == l.sources
    && NotDowngraded(l, sources)
  }
}
