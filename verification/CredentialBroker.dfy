/** The capability store and the broker as mutable objects, proved against CredentialModel. */
module CredentialBroker {
  import opened Wrappers
  import opened CredentialModel
  import opened CredentialInvariants

  class MemoryCredentialCapabilityStore {
    const limit: nat
    var items: Items

    constructor (limit: nat)
      requires 1 <= limit
      ensures this.limit == limit && items == map[]
    {
      this.limit := limit;
      items := map[];
    }

    method Register(c: Capability) returns (result: Registration)
      modifies this`items
      ensures (items, result) == CredentialModel.Register(old(items), limit, c)
    {
      if c.id in items {
        return if items[c.id].capability == c then Replay else Collision;
      }
      if |items| >= limit {
        return Collision;
      }
      items := items[c.id := Entry(c, Stored)];
      return Registered;
    }

    method Consume(c: Capability, now: int) returns (result: Consumption)
      modifies this`items
      ensures (items, result) == CredentialModel.Consume(old(items), c, now)
    {
      if c.id !in items || items[c.id].capability != c {
        return Missing;
      }
      var state := items[c.id].state;
      if state == Revoked {
        return WasRevoked;
      }
      if state == Consumed {
        return WasConsumed;
      }
      if now >= c.expiresAt {
        items := items[c.id := Entry(c, Expired)];
        return TooLate;
      }
      items := items[c.id := Entry(c, Consumed)];
      return Taken;
    }

    /** Revoke what is still stored for a reference, and say how much that was. */
    method RevokeReference(r: Reference) returns (revoked: nat)
      modifies this`items
      ensures items == CredentialModel.RevokeReference(old(items), r)
      ensures revoked == |StoredUnder(old(items), r)|
    {
      revoked := 0;
      ghost var hit: set<CapabilityId> := {};
      var todo := items.Keys;
      while todo != {}
        invariant todo <= items.Keys == old(items).Keys
        invariant hit == set i | i in old(items) && i !in todo && old(items)[i].capability.reference == r
                                 && old(items)[i].state == Stored
        invariant revoked == |hit|
        invariant forall i :: i in items ==>
                    items[i] == if i in hit then old(items)[i].(state := Revoked) else old(items)[i]
        decreases todo
      {
        var i := NextOf(todo);
        if items[i].capability.reference == r && items[i].state == Stored {
          items := items[i := items[i].(state := Revoked)];
          hit := hit + {i};
          revoked := revoked + 1;
        }
        todo := todo - {i};
      }
      assert hit == StoredUnder(old(items), r);
      assert forall i :: i in items ==> items[i] == CredentialModel.RevokeReference(old(items), r)[i];
    }
  }

  class CredentialBroker {
    const policy: Policy
    const store: MemoryCredentialCapabilityStore
    var versions: map<Reference, Version>
    var withdrawn: set<Reference>

    /** The broker between calls: nothing is in progress. */
    function View(): State
      reads this, store
    {
      State(store.items, versions, withdrawn, map[])
    }

    constructor (policy: Policy, versions: map<Reference, Version>)
      requires 1 <= policy.limit
      ensures this.policy == policy && View() == Initial(versions) && store.limit == policy.limit && fresh(store)
    {
      this.policy := policy;
      this.versions := versions;
      withdrawn := {};
      store := new MemoryCredentialCapabilityStore(policy.limit);
    }

    /** The first locked section of an issue, with the checks before it. */
    method PrepareIssue(r: Reference, x: Execution, ttl: Option<int>, now: int) returns (draft: Option<Capability>)
      ensures Apply(policy, View(), StartIssue(0, r, x, ttl, now)).0
              == if draft.Some? then Begin(View(), 0, Issuing(draft.value)) else View()
    {
      if !(r in policy.bindings && policy.bindings[r].active && x.matches && x.issuedAt <= now < x.expiresAt) {
        return None;
      }
      var b := policy.bindings[r];
      var lifetime := if ttl.None? || ttl.value == 0 then b.maxTtl else ttl.value;
      if !x.verified || lifetime < 1 || lifetime > b.maxTtl {
        return None;
      }
      if r in withdrawn || r !in versions {
        return None;
      }
      var expires := if now + lifetime < x.expiresAt then now + lifetime else x.expiresAt;
      return Some(Capability(0, r, x.digest, versions[r], now, expires));
    }

    /** The two locked sections of one issue with nothing in between. */
    method Issue(r: Reference, x: Execution, ttl: Option<int>, now: int, id: CapabilityId, vaultVersion: Option<Version>)
      returns (outcome: Outcome)
      requires store.limit == policy.limit
      modifies store`items
      ensures var started := Apply(policy, old(View()), StartIssue(0, r, x, ttl, now)).0;
              (View(), outcome) == Apply(policy, started, FinishIssue(0, id, vaultVersion))
    {
      var draft := PrepareIssue(r, x, ttl, now);
      if draft.None? {
        return Nothing;
      }
      var c := draft.value.(id := id);
      assert map[0 := Issuing(draft.value)] - {0} == map[];
      if vaultVersion != Some(c.version) {
        return Nothing;
      }
      var result := store.Register(c);
      return if result == Registered then Issued(c) else Nothing;
    }

    /** The two locked sections of one resolution and its reading of the vault, with nothing in between. */
    method Resolve(c: Capability, x: Execution, intact: bool, now: int, vaultVersion: Option<Version>)
      returns (outcome: Outcome)
      requires store.limit == policy.limit
      modifies store`items
      ensures var started := Apply(policy, old(View()), StartResolve(0, c, x, intact, now)).0;
              var taken := Apply(policy, started, Take(0)).0;
              (View(), outcome) == Apply(policy, taken, Fetch(0, vaultVersion))
    {
      if !ResolveOk(c, x, intact, now) {
        return Nothing;
      }
      if c.reference in withdrawn || c.reference !in versions || versions[c.reference] != c.version {
        return Nothing;
      }
      assert map[0 := Resolving(c, now)] - {0} == map[];
      var result := store.Consume(c, now);
      if result != Taken {
        return Nothing;
      }
      assert map[0 := Resolving(c, now)][0 := Fetching(c)] - {0} == map[];
      return if vaultVersion == Some(c.version) then HandedOut(c) else Nothing;
    }

    method Revoke(r: Reference) returns (count: nat)
      modifies this`withdrawn, store`items
      ensures View() == Apply(policy, Apply(policy, old(View()), StartRevoke(0, r)).0, FinishWithdraw(0)).0
      ensures count == |StoredUnder(old(store.items), r)|
    {
      withdrawn := withdrawn + {r};
      assert map[0 := Withdrawing(r)] - {0} == map[];
      count := store.RevokeReference(r);
    }

    /** Rotating a reference the policy does not bind is an error and changes nothing. */
    method Rotate(r: Reference, v: Version) returns (count: Option<nat>)
      modifies this`withdrawn, this`versions, store`items
      ensures View() == Apply(policy, Apply(policy, old(View()), StartRotate(0, r, v)).0, FinishWithdraw(0)).0
      ensures count == if r in policy.bindings then Some(|StoredUnder(old(store.items), r)|) else None
    {
      if r !in policy.bindings {
        return None;
      }
      versions := versions[r := v];
      withdrawn := withdrawn - {r};
      assert map[0 := Withdrawing(r)] - {0} == map[];
      var n := store.RevokeReference(r);
      return Some(n);
    }
  }
}
