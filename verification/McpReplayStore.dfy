/** The message replay store, updated in place, and the verifier that claims from it. */
module McpMessages {
  import opened Wrappers
  import opened ReplayModel

  class MemoryMCPReplayStore {
    const capacity: nat
    var entries: Store

    constructor (capacity: nat)
      requires 1 <= capacity
      ensures this.capacity == capacity && entries == map[]
    {
      this.capacity := capacity;
      entries := map[];
    }

    /** Delete every entry whose time has come. */
    method Evict(now: int)
      modifies this`entries
      ensures entries == Live(old(entries), now)
    {
      var todo := entries.Keys;
      while todo != {}
        invariant todo <= old(entries).Keys
        invariant forall k :: k in entries <==> k in old(entries) && (k in todo || old(entries)[k] > now)
        invariant forall k :: k in entries ==> entries[k] == old(entries)[k]
        decreases todo
      {
        var k := NextOf(todo);
        if entries[k] <= now {
          entries := entries - {k};
        }
        todo := todo - {k};
      }
    }

    method Claim(key: Key, until: int, now: int) returns (status: Status)
      modifies this`entries
      ensures (entries, status) == ReplayModel.Claim(old(entries), capacity, key, until, now)
    {
      if until <= now {
        return PastExpiry;
      }
      Evict(now);
      if key in entries {
        return Replayed;
      }
      if |entries| >= capacity {
        return Full;
      }
      entries := entries[key := until];
      return Claimed;
    }
  }

  class MCPMessageVerifier {
    const policy: MessagePolicy
    const store: MemoryMCPReplayStore

    constructor (policy: MessagePolicy, capacity: nat)
      requires 1 <= capacity
      ensures this.policy == policy && store.capacity == capacity && store.entries == map[] && fresh(store)
    {
      this.policy := policy;
      store := new MemoryMCPReplayStore(capacity);
    }

    /** `authentic`: the envelope is signed by an active trusted key and bound to this exchange. */
    method Verify(e: Envelope, authentic: bool, now: int) returns (verdict: Verdict)
      modifies store`entries
      ensures (store.entries, verdict)
              == Offer(old(store.entries), store.capacity, MessageAttempt(policy, e, authentic, now))
      ensures verdict != Answered(PastExpiry)
    {
      if !authentic {
        return Refused;
      }
      if e.issuedAt > now + policy.skew || e.issuedAt < now - policy.maxAge {
        return Refused;
      }
      if e.expiresAt <= now - policy.skew || e.expiresAt - e.issuedAt > policy.maxTtl {
        return Refused;
      }
      var remember := if e.expiresAt > e.issuedAt + policy.maxAge then e.expiresAt else e.issuedAt + policy.maxAge;
      var status := store.Claim((e.keyId, e.nonce), remember + policy.skew, now);
      return Answered(status);
    }
  }
}
