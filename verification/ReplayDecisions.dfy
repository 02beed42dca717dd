/** Exactly which messages and grants are accepted, field by field and in terms of those before. */
module ReplayDecisions {
  import opened Wrappers
  import opened ReplayModel
  import opened ReplayInvariants

  /******* What is remembered *******/

  /** Until when the key is remembered after the first `n` offers, if it is. */
  function Remembered(capacity: nat, run: seq<Attempt>, n: nat, key: Key): Option<int>
    requires n <= |run|
  {
    if n == 0 then None
    else
      var a := run[n - 1];
      if a.key == key && AcceptedAt(capacity, run, n - 1) then Some(a.until)
      else match Remembered(capacity, run, n - 1, key)
        case None => None
        case Some(until) => if a.admitted && a.now < a.until && until <= a.now then None else Some(until)
  }

  function Lookup(store: Store, key: Key): Option<int> {
    if key in store then Some(store[key]) else None
  }

  lemma OfferRemembers(store: Store, capacity: nat, a: Attempt, key: Key)
    ensures var (after, v) := Offer(store, capacity, a);
            Lookup(after, key) ==
              if a.key == key && v == Answered(Claimed) then Some(a.until)
              else match Lookup(store, key)
                case None => None
                case Some(until) => if a.admitted && a.now < a.until && until <= a.now then None else Some(until)
  {
  }

  /** With any clock the store holds exactly what the offers so far have left remembered. */
  lemma {:induction false} StoreIsRemembered(capacity: nat, run: seq<Attempt>, n: nat, key: Key)
    requires n <= |run|
    ensures Lookup(Run(capacity, run[..n]), key) == Remembered(capacity, run, n, key)
  {
    if n > 0 {
      StoreIsRemembered(capacity, run, n - 1, key);
      RunExtends(capacity, run, n - 1);
      OfferRemembers(Run(capacity, run[..n - 1]), capacity, run[n - 1], key);
    }
  }

  /** The keys remembered beyond this time after the first `n` offers. */
  ghost predicate RememberedBeyond(capacity: nat, run: seq<Attempt>, n: nat, now: int, keys: set<Key>)
    requires n <= |run|
  {
    forall k :: k in keys <==> Remembered(capacity, run, n, k).Some? && Remembered(capacity, run, n, k).value > now
  }

  lemma LiveAreRemembered(capacity: nat, run: seq<Attempt>, n: nat, now: int, keys: set<Key>)
    requires n <= |run| && RememberedBeyond(capacity, run, n, now, keys)
    ensures Live(Run(capacity, run[..n]), now).Keys == keys
  {
    var live := Live(Run(capacity, run[..n]), now);
    forall k ensures k in live <==> k in keys { StoreIsRemembered(capacity, run, n, k); }
  }

  /** The answer to an offer, with any clock. */
  lemma AnsweredIff(capacity: nat, run: seq<Attempt>, n: nat, keys: set<Key>)
    requires n < |run| && RememberedBeyond(capacity, run, n, run[n].now, keys)
    ensures var a := run[n];
            VerdictAt(capacity, run, n) ==
              if !a.admitted then Refused
              else if a.until <= a.now then Answered(PastExpiry)
              else if a.key in keys then Answered(Replayed)
              else if |keys| >= capacity then Answered(Full)
              else Answered(Claimed)
  {
    LiveAreRemembered(capacity, run, n, run[n].now, keys);
    var live := Live(Run(capacity, run[..n]), run[n].now);
    assert |live| == |live.Keys|;
  }

  /******* Messages *******/

  /** Neither from the future nor too old, not expired, and of no longer life than allowed; the clock may be off a little. */
  predicate InTime(p: MessagePolicy, e: Envelope, now: int) {
    && now - p.maxAge <= e.issuedAt && e.issuedAt - p.skew <= now
    && now < e.expiresAt + p.skew
    && e.expiresAt <= e.issuedAt + p.maxTtl
  }

  /** The moment after both the expiry and the greatest age, allowing for the clock. */
  predicate RetainedUntil(p: MessagePolicy, e: Envelope, until: int) {
    && e.expiresAt + p.skew <= until && e.issuedAt + p.maxAge + p.skew <= until
    && (until == e.expiresAt + p.skew || until == e.issuedAt + p.maxAge + p.skew)
  }

  lemma MessageOffered(p: MessagePolicy, ms: seq<Message>, n: nat)
    requires n < |ms|
    ensures var a, m := MessageRun(p, ms)[n], ms[n];
            && (a.admitted <==> m.authentic && InTime(p, m.envelope, m.now))
            && a.key == (m.envelope.keyId, m.envelope.nonce) && a.now == m.now
            && RetainedUntil(p, m.envelope, a.until)
            && (a.admitted ==> a.now < a.until)
  {
  }

  /**
   A message is accepted exactly when it is authentic and in time, its signing key and nonce are not remembered
   at that moment, and there is room; what is remembered is kept until its retention deadline.
   */
  lemma MessageAcceptedIff(p: MessagePolicy, capacity: nat, ms: seq<Message>, n: nat, keys: set<Key>)
    requires n < |ms| && RememberedBeyond(capacity, MessageRun(p, ms), n, ms[n].now, keys)
    ensures var m := ms[n];
            AcceptedAt(capacity, MessageRun(p, ms), n) <==>
              && m.authentic && InTime(p, m.envelope, m.now)
              && (m.envelope.keyId, m.envelope.nonce) !in keys && |keys| < capacity
  {
    MessageOffered(p, ms, n);
    AnsweredIff(capacity, MessageRun(p, ms), n, keys);
  }

  /******* Approval grants *******/

  predicate GrantInTime(p: GrantPolicy, g: Grant, now: int) {
    g.issuedAt - p.skew <= now && now < g.expiresAt && g.expiresAt <= g.issuedAt + p.maxTtl
  }

  lemma GrantOffered(p: GrantPolicy, gs: seq<Presented>, n: nat)
    requires n < |gs|
    ensures var a, g := GrantRun(p, gs)[n], gs[n];
            && (a.admitted <==> g.authentic && GrantInTime(p, g.grant, g.now))
            && a.key == (g.grant.tenant, g.grant.nonce) && a.now == g.now
            && a.until - p.skew == g.grant.expiresAt
            && (a.admitted ==> a.now < a.until)
  {
  }

  /** A grant is accepted exactly when it is authentic and in time, its nonce is not remembered, and there is room. */
  lemma GrantAcceptedIff(p: GrantPolicy, capacity: nat, gs: seq<Presented>, n: nat, keys: set<Key>)
    requires n < |gs| && RememberedBeyond(capacity, GrantRun(p, gs), n, gs[n].now, keys)
    ensures var g := gs[n];
            AcceptedAt(capacity, GrantRun(p, gs), n) <==>
              && g.authentic && GrantInTime(p, g.grant, g.now)
              && (g.grant.tenant, g.grant.nonce) !in keys && |keys| < capacity
  {
    GrantOffered(p, gs, n);
    AnsweredIff(capacity, GrantRun(p, gs), n, keys);
  }
}
