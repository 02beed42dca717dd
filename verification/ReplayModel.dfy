/**
 Specification of the two evicting replay stores: nonces of signed messages, and nonces of approval grants.

 Signatures, trusted keys, identity bindings and sizes are one boolean of the item presented.
 */
module ReplayModel {
  import opened Wrappers

  type Key = (int, int)   // signing key or tenant, and nonce

  /** What has been claimed, and until when each claim is remembered. */
  type Store = map<Key, int>

  datatype Status = Claimed | Replayed | Full | PastExpiry

  function Live(store: Store, now: int): Store {
    map k | k in store && store[k] > now :: store[k]
  }

  function Claim(store: Store, capacity: nat, key: Key, until: int, now: int): (Store, Status) {
    if until <= now then (store, PastExpiry)
    else
      var live := Live(store, now);
      if key in live then (live, Replayed)
      else if |live| >= capacity then (live, Full)
      else (live[key := until], Claimed)
  }

  /** The same decisions taken from a log that forgets nothing. */
  function ClaimFromLog(log: Store, capacity: nat, key: Key, until: int, now: int): (Store, Status) {
    if until <= now then (log, PastExpiry)
    else if key in log && log[key] > now then (log, Replayed)
    else if |Live(log, now)| >= capacity then (log, Full)
    else (log[key := until], Claimed)
  }

  /******* What reaches the stores *******/

  datatype MessagePolicy = MessagePolicy(skew: nat, maxAge: nat, maxTtl: nat)

  datatype Envelope = Envelope(keyId: int, nonce: int, issuedAt: int, expiresAt: int, rest: int)

  predicate MessageFresh(p: MessagePolicy, e: Envelope, now: int) {
    && e.issuedAt <= now + p.skew
    && e.issuedAt >= now - p.maxAge
    && e.expiresAt > now - p.skew
    && e.expiresAt - e.issuedAt <= p.maxTtl
  }

  function RememberMessage(p: MessagePolicy, e: Envelope): int {
    (if e.expiresAt > e.issuedAt + p.maxAge then e.expiresAt else e.issuedAt + p.maxAge) + p.skew
  }

  datatype GrantPolicy = GrantPolicy(skew: nat, maxTtl: nat)

  datatype Grant = Grant(tenant: int, nonce: int, issuedAt: int, expiresAt: int, rest: int)

  predicate GrantFresh(p: GrantPolicy, g: Grant, now: int) {
    && g.issuedAt <= now + p.skew
    && g.expiresAt > now
    && g.expiresAt - g.issuedAt <= p.maxTtl
  }

  function RememberGrant(p: GrantPolicy, g: Grant): int {
    g.expiresAt + p.skew
  }

  /** One item offered to a store: `admitted` when it passed every other check. */
  datatype Attempt = Attempt(admitted: bool, key: Key, until: int, now: int)

  function MessageAttempt(p: MessagePolicy, e: Envelope, authentic: bool, now: int): Attempt {
    Attempt(authentic && MessageFresh(p, e, now), (e.keyId, e.nonce), RememberMessage(p, e), now)
  }

  function GrantAttempt(p: GrantPolicy, g: Grant, authentic: bool, now: int): Attempt {
    Attempt(authentic && GrantFresh(p, g, now), (g.tenant, g.nonce), RememberGrant(p, g), now)
  }

  datatype Verdict = Refused | Answered(status: Status)

  function Offer(store: Store, capacity: nat, a: Attempt): (Store, Verdict) {
    if !a.admitted then (store, Refused)
    else var (after, status) := Claim(store, capacity, a.key, a.until, a.now); (after, Answered(status))
  }

  function OfferToLog(log: Store, capacity: nat, a: Attempt): (Store, Verdict) {
    if !a.admitted then (log, Refused)
    else var (after, status) := ClaimFromLog(log, capacity, a.key, a.until, a.now); (after, Answered(status))
  }

  function Run(capacity: nat, run: seq<Attempt>): Store {
    if run == [] then map[] else Offer(Run(capacity, run[..|run| - 1]), capacity, run[|run| - 1]).0
  }

  function RunLog(capacity: nat, run: seq<Attempt>): Store {
    if run == [] then map[] else OfferToLog(RunLog(capacity, run[..|run| - 1]), capacity, run[|run| - 1]).0
  }

  function VerdictAt(capacity: nat, run: seq<Attempt>, i: nat): Verdict
    requires i < |run|
  {
    Offer(Run(capacity, run[..i]), capacity, run[i]).1
  }

  predicate AcceptedAt(capacity: nat, run: seq<Attempt>, i: nat)
    requires i < |run|
  {
    VerdictAt(capacity, run, i) == Answered(Claimed)
  }

  /** The clock of the offers never goes back. */
  ghost predicate ClockForward(run: seq<Attempt>) {
    forall i, j :: 0 <= i < j < |run| ==> run[i].now <= run[j].now
  }
}
