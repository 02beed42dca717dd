/** The prompt queues and grant claims of high-impact approval, updated in place. */
module HighImpactApproval {
  import opened Wrappers
  import P = PromptModel
  import R = ReplayModel

  /** Every queue but those of `todo` has been pruned, and dropped when nothing was left. */
  ghost predicate PrunedExcept(before: P.Prompts, prompts: P.Prompts, todo: set<P.Key>, cutoff: int) {
    && (forall k :: k in prompts ==> k in before)
    && (forall k :: k in before && k in todo ==> k in prompts && prompts[k] == before[k])
    && (forall k :: k in before && k !in todo ==>
          var rest := P.PruneFront(before[k], cutoff); if k in prompts then prompts[k] == rest != [] else rest == [])
  }

  lemma AllPruned(before: P.Prompts, prompts: P.Prompts, cutoff: int)
    requires PrunedExcept(before, prompts, {}, cutoff)
    ensures prompts == P.Prune(before, cutoff)
  {
    var pruned := P.Prune(before, cutoff);
    forall k | k in prompts ensures k in pruned && prompts[k] == pruned[k] {
    }
    forall k | k in pruned ensures k in prompts {
      assert k in before && P.PruneFront(before[k], cutoff) != [];
    }
    SameMap(prompts, pruned);
  }

  class MemoryHighImpactApprovalStateStore {
    const maxKeys: nat
    const maxNonces: nat
    var prompts: P.Prompts
    var approvals: R.Store

    constructor (maxKeys: nat, maxNonces: nat)
      requires 1 <= maxKeys && 1 <= maxNonces
      ensures this.maxKeys == maxKeys && this.maxNonces == maxNonces && prompts == map[] && approvals == map[]
    {
      this.maxKeys, this.maxNonces := maxKeys, maxNonces;
      prompts, approvals := map[], map[];
    }

    /** Pop expired prompts off the front of one queue. */
    static method PopExpired(queue: seq<P.Prompt>, cutoff: int) returns (rest: seq<P.Prompt>)
      ensures rest == P.PruneFront(queue, cutoff)
    {
      rest := queue;
      while rest != [] && rest[0].at <= cutoff
        invariant P.PruneFront(rest, cutoff) == P.PruneFront(queue, cutoff)
        decreases |rest|
      {
        rest := rest[1..];
      }
    }

    /** Prune every queue, and drop the queues that end up empty. */
    method PruneAll(cutoff: int)
      modifies this`prompts
      ensures prompts == P.Prune(old(prompts), cutoff)
    {
      var todo := prompts.Keys;
      while todo != {}
        invariant todo <= old(prompts).Keys
        invariant PrunedExcept(old(prompts), prompts, todo, cutoff)
        decreases todo
      {
        var k := NextOf(todo);
        var rest := PopExpired(prompts[k], cutoff);
        prompts := if rest == [] then prompts - {k} else prompts[k := rest];
        todo := todo - {k};
      }
      AllPruned(old(prompts), prompts, cutoff);
    }

    /** How many prompts of a queue showed this preview. */
    static method CountRepeats(queue: seq<P.Prompt>, preview: int) returns (repeats: nat)
      ensures repeats == P.Repeats(queue, preview)
    {
      repeats := 0;
      var i := 0;
      while i < |queue|
        invariant 0 <= i <= |queue|
        invariant repeats == P.Repeats(queue[..i], preview)
      {
        assert queue[..i + 1][..i] == queue[..i];
        if queue[i].preview == preview {
          repeats := repeats + 1;
        }
        i := i + 1;
      }
      assert queue[..i] == queue;
    }

    method RecordPrompt(key: P.Key, preview: int, now: int, window: nat, maxPrompts: nat, maxRepeats: nat)
      returns (status: P.Status)
      modifies this`prompts
      ensures (prompts, status)
              == P.Record(P.Limits(window, maxPrompts, maxRepeats, maxKeys), old(prompts), key, preview, now)
    {
      PruneAll(now - window);
      ghost var live := prompts;
      if key !in prompts {
        if |prompts| >= maxKeys {
          return P.Full;
        }
        prompts := prompts[key := []];
      }
      var queue := prompts[key];
      var repeats := CountRepeats(queue, preview);
      if |queue| >= maxPrompts || repeats >= maxRepeats {
        assert prompts == live[key := P.QueueOf(live, key)];
        return P.Fatigue;
      }
      prompts := prompts[key := queue + [P.Prompt(now, preview)]];
      assert prompts == live[key := P.QueueOf(live, key) + [P.Prompt(now, preview)]];
      return P.Stored;
    }

    /** The claims are rebuilt without the expired ones before the answer is looked up. */
    method ClaimApproval(key: R.Key, until: int, now: int) returns (status: R.Status)
      modifies this`approvals
      ensures (approvals, status) == R.Claim(old(approvals), maxNonces, key, until, now)
    {
      if until <= now {
        return R.PastExpiry;
      }
      approvals := map k | k in approvals && approvals[k] > now :: approvals[k];
      if key in approvals {
        return R.Replayed;
      }
      if |approvals| >= maxNonces {
        return R.Full;
      }
      approvals := approvals[key := until];
      return R.Claimed;
    }
  }

  /** The freshness and replay part of the approval gate. */
  class HighImpactApprovalGate {
    const policy: R.GrantPolicy
    const store: MemoryHighImpactApprovalStateStore

    constructor (policy: R.GrantPolicy, store: MemoryHighImpactApprovalStateStore)
      ensures this.policy == policy && this.store == store
    {
      this.policy, this.store := policy, store;
    }

    /** `authentic`: the grant binds this plan, preview, policy, actor and context, and its issuer is confirmed. */
    method ClaimGrant(g: R.Grant, authentic: bool, now: int) returns (verdict: R.Verdict)
      modifies store`approvals
      ensures (store.approvals, verdict)
              == R.Offer(old(store.approvals), store.maxNonces, R.GrantAttempt(policy, g, authentic, now))
      ensures verdict != R.Answered(R.PastExpiry)
    {
      if !authentic || g.issuedAt > now + policy.skew || g.expiresAt <= now
         || g.expiresAt - g.issuedAt > policy.maxTtl {
        return R.Refused;
      }
      var status := store.ClaimApproval((g.tenant, g.nonce), g.expiresAt + policy.skew, now);
      return R.Answered(status);
    }
  }
}
