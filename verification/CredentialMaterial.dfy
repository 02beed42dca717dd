/** The material a resolution hands out, after it has used its capability up. */
module CredentialMaterial {
  import opened Wrappers
  import opened CredentialModel
  import opened CredentialInvariants

  /******* Once *******/

  /** Used up, and nobody is still fetching its material. */
  ghost predicate Spent(s: State, id: CapabilityId) {
    && id in s.items && s.items[id].state == Consumed
    && forall t :: t in s.calls && s.calls[t].Fetching? ==> s.calls[t].taken.id != id
  }

  lemma HandingOutSpends(p: Policy, s: State, step: Step)
    requires StateOk(p, s) && Apply(p, s, step).1.HandedOut?
    ensures step.Fetch? && step.t in s.calls && s.calls[step.t] == Fetching(Apply(p, s, step).1.material)
    ensures Spent(Apply(p, s, step).0, Apply(p, s, step).1.material.id)
  {
  }

  lemma StepKeepsSpent(p: Policy, s: State, step: Step, id: CapabilityId)
    requires StateOk(p, s) && Spent(s, id)
    ensures Spent(Apply(p, s, step).0, id)
    ensures Apply(p, s, step).1.HandedOut? ==> Apply(p, s, step).1.material.id != id
  {
    StepKeepsState(p, s, step);
    if Apply(p, s, step).1.UsedUp? { UsedWasStored(p, s, step); }
  }

  ghost predicate SpentAt(p: Policy, s: State, run: seq<Step>, n: nat, id: CapabilityId)
    requires n <= |run|
  {
    Spent(Run(p, s, run[..n]), id)
  }

  lemma SpentOneMore(p: Policy, s: State, run: seq<Step>, n: nat, id: CapabilityId)
    requires StateOk(p, s) && n < |run| && SpentAt(p, s, run, n, id)
    ensures SpentAt(p, s, run, n + 1, id) && !HandsOut(p, s, run, n, id)
  {
    RunKeepsState(p, s, run[..n]);
    RunExtends(p, s, run, n);
    StepKeepsSpent(p, Run(p, s, run[..n]), run[n], id);
  }

  lemma {:induction false} RunKeepsSpent(p: Policy, s: State, run: seq<Step>, id: CapabilityId)
    requires StateOk(p, s) && Spent(s, id)
    ensures Spent(Run(p, s, run), id)
  {
    if run != [] {
      var before := run[..|run| - 1];
      RunKeepsState(p, s, before);
      RunKeepsSpent(p, s, before, id);
      StepKeepsSpent(p, Run(p, s, before), run[|run| - 1], id);
    }
  }

  lemma SpentStays(p: Policy, s: State, run: seq<Step>, i: nat, j: nat, id: CapabilityId)
    requires StateOk(p, s) && i <= j <= |run| && SpentAt(p, s, run, i, id)
    ensures SpentAt(p, s, run, j, id)
  {
    var before := run[..j];
    assert before[..i] == run[..i];
    RunSplits(p, s, before, i);
    RunKeepsState(p, s, run[..i]);
    RunKeepsSpent(p, Run(p, s, run[..i]), before[i..], id);
  }

  /** Step `n` hands out the material of this capability. */
  ghost predicate HandsOut(p: Policy, s: State, run: seq<Step>, n: nat, id: CapabilityId)
    requires n < |run|
  {
    OutcomeAt(p, s, run, n).HandedOut? && OutcomeAt(p, s, run, n).material.id == id
  }

  lemma HandingOutSpendsAt(p: Policy, s: State, run: seq<Step>, i: nat, id: CapabilityId)
    requires StateOk(p, s) && i < |run| && HandsOut(p, s, run, i, id)
    ensures SpentAt(p, s, run, i + 1, id)
  {
    RunKeepsState(p, s, run[..i]);
    HandingOutSpends(p, Run(p, s, run[..i]), run[i]);
    RunExtends(p, s, run, i);
  }

  /** Each capability yields material at most once. */
  lemma HandedOutAtMostOnce(p: Policy, s: State, run: seq<Step>, i: nat, j: nat, id: CapabilityId)
    requires StateOk(p, s) && i < j < |run|
    ensures !(HandsOut(p, s, run, i, id) && HandsOut(p, s, run, j, id))
  {
    if HandsOut(p, s, run, i, id) {
      HandingOutSpendsAt(p, s, run, i, id);
      SpentStays(p, s, run, i + 1, j, id);
      SpentOneMore(p, s, run, j, id);
    }
  }

  /******* Used up before *******/

  predicate Fetches(s: State, t: int, c: Capability) {
    t in s.calls && s.calls[t] == Fetching(c)
  }

  /** Step `i` used the capability up for thread `t`. */
  ghost predicate UsedAt(p: Policy, s: State, run: seq<Step>, i: nat, t: int, c: Capability)
    requires i < |run|
  {
    run[i] == Take(t) && OutcomeAt(p, s, run, i) == UsedUp(c)
  }

  lemma FetchComesFrom(p: Policy, s: State, step: Step, t: int, c: Capability)
    requires Fetches(Apply(p, s, step).0, t, c)
    ensures Fetches(s, t, c) || (step == Take(t) && Apply(p, s, step).1 == UsedUp(c))
  {
  }

  lemma {:induction false} FetchWasUsed(p: Policy, s: State, run: seq<Step>, t: int, c: Capability)
    requires s.calls == map[] && Fetches(Run(p, s, run), t, c)
    ensures exists i :: 0 <= i < |run| && UsedAt(p, s, run, i, t, c)
  {
    if run != [] {
      var last := |run| - 1;
      var before := run[..last];
      FetchComesFrom(p, Run(p, s, before), run[last], t, c);
      if Fetches(Run(p, s, before), t, c) {
        FetchWasUsed(p, s, before, t, c);
        var i :| 0 <= i < |before| && UsedAt(p, s, before, i, t, c);
        assert before[..i] == run[..i] && before[i] == run[i];
        assert UsedAt(p, s, run, i, t, c);
      } else {
        assert UsedAt(p, s, run, last, t, c);
      }
    }
  }

  /** Material handed out belongs to a capability that the same call used up before, at the vault's version. */
  lemma HandedOutWasUsed(p: Policy, s: State, run: seq<Step>, j: nat)
    requires s.calls == map[] && StateOk(p, s) && j < |run| && OutcomeAt(p, s, run, j).HandedOut?
    ensures var c := OutcomeAt(p, s, run, j).material;
            && run[j].Fetch? && run[j].vaultVersion == Some(c.version)
            && exists i :: 0 <= i < j && UsedAt(p, s, run, i, run[j].t, c)
  {
    var before := run[..j];
    var c := OutcomeAt(p, s, run, j).material;
    RunKeepsState(p, s, before);
    HandingOutSpends(p, Run(p, s, before), run[j]);
    FetchWasUsed(p, s, before, run[j].t, c);
    var i :| 0 <= i < |before| && UsedAt(p, s, before, i, run[j].t, c);
    assert before[..i] == run[..i] && before[i] == run[i];
    assert UsedAt(p, s, run, i, run[j].t, c);
  }

  /******* After a withdrawal *******/

  /** Some step before the `k`th used the capability up. */
  ghost predicate UsedBefore(p: Policy, s: State, run: seq<Step>, k: nat, c: Capability)
    requires k <= |run|
  {
    exists i :: 0 <= i < k && OutcomeAt(p, s, run, i) == UsedUp(c)
  }

  /** Some step after the `k`th and before the `j`th used up the capability, which was current at that moment. */
  ghost predicate UsedWhileCurrent(p: Policy, s: State, run: seq<Step>, k: nat, j: nat, c: Capability)
    requires j <= |run|
  {
    exists i :: k < i < j && OutcomeAt(p, s, run, i) == UsedUp(c) && Current(Run(p, s, run[..i]), c.reference, c.version)
  }

  lemma QuietShorter(p: Policy, s: State, run: seq<Step>, k: nat, i: nat, j: nat, r: Reference)
    requires k < i <= j <= |run| && QuietSince(p, s, run[..j], k, r)
    ensures QuietSince(p, s, run[..i], k, r)
  {
    var long, short := run[..j], run[..i];
    forall n | 0 <= n < i ensures short[n] == long[n] && short[..n] == long[..n] {
    }
  }

  /**
   After a revocation or rotation of a reference has reached the store, and until its tables change again,
   the material handed out for it is of capabilities used up before, or used up since at the current version.
   */
  lemma MaterialIsOldOrCurrent(p: Policy, s: State, run: seq<Step>, k: nat, j: nat, r: Reference)
    requires s.calls == map[] && StateOk(p, s) && k < j < |run| && QuietSince(p, s, run[..j], k, r)
    requires OutcomeAt(p, s, run, j).HandedOut? && OutcomeAt(p, s, run, j).material.reference == r
    ensures var c := OutcomeAt(p, s, run, j).material;
            UsedBefore(p, s, run, k, c) || UsedWhileCurrent(p, s, run, k, j, c)
  {
    HandedOutWasUsed(p, s, run, j);
    var c := OutcomeAt(p, s, run, j).material;
    var i :| 0 <= i < j && UsedAt(p, s, run, i, run[j].t, c);
    WithdrawalUsesNothing(p, s, run, j, k, r);
    if i > k {
      QuietShorter(p, s, run, k, i, j, r);
      UsedIsCurrent(p, s, run, k, i, r);
    }
  }

  lemma WithdrawalUsesNothing(p: Policy, s: State, run: seq<Step>, j: nat, k: nat, r: Reference)
    requires k < j <= |run| && QuietSince(p, s, run[..j], k, r)
    ensures !OutcomeAt(p, s, run, k).UsedUp?
  {
    assert run[..j][k] == run[k];
  }

  /** What is handed out for a reference after its revocation has completed was used up before that. */
  lemma MaterialAfterRevocationIsOld(p: Policy, s: State, run: seq<Step>, k: nat, j: nat, r: Reference)
    requires s.calls == map[] && StateOk(p, s) && k < j < |run| && QuietSince(p, s, run[..j], k, r)
    requires r in Run(p, s, run[..k]).withdrawn
    requires OutcomeAt(p, s, run, j).HandedOut? && OutcomeAt(p, s, run, j).material.reference == r
    ensures UsedBefore(p, s, run, k, OutcomeAt(p, s, run, j).material)
  {
    HandedOutWasUsed(p, s, run, j);
    var c := OutcomeAt(p, s, run, j).material;
    var i :| 0 <= i < j && UsedAt(p, s, run, i, run[j].t, c);
    WithdrawalUsesNothing(p, s, run, j, k, r);
    if i > k {
      QuietShorter(p, s, run, k, i, j, r);
      RevokedNeverUsed(p, s, run, k, i, r);
    }
  }

  /******* A call that has used its capability up *******/

  lemma OtherStepKeepsFetch(p: Policy, s: State, step: Step, t: int, c: Capability)
    requires Fetches(s, t, c) && step.t != t
    ensures Fetches(Apply(p, s, step).0, t, c)
  {
  }

  lemma {:induction false} OthersKeepFetch(p: Policy, s: State, run: seq<Step>, t: int, c: Capability)
    requires Fetches(s, t, c) && forall i :: 0 <= i < |run| ==> run[i].t != t
    ensures Fetches(Run(p, s, run), t, c)
  {
    if run != [] {
      var before := run[..|run| - 1];
      forall i | 0 <= i < |before| ensures before[i].t != t {
        assert before[i] == run[i];
      }
      OthersKeepFetch(p, s, before, t, c);
      OtherStepKeepsFetch(p, Run(p, s, before), run[|run| - 1], t, c);
    }
  }

  /**
   Whatever other calls do after a call has used its capability up, revocations and rotations included, it
   hands the material out if and only if the vault then has the version of the capability.
   */
  lemma UsedIsHandedOutIff(p: Policy, s: State, run: seq<Step>, t: int, c: Capability, vaultVersion: Option<Version>)
    requires Fetches(s, t, c) && forall i :: 0 <= i < |run| ==> run[i].t != t
    ensures Apply(p, Run(p, s, run), Fetch(t, vaultVersion)).1 == HandedOut(c) <==> vaultVersion == Some(c.version)
  {
    OthersKeepFetch(p, s, run, t, c);
  }

  /** Step `j` hands out material of `r` after a revocation of it has completed at step `k`. */
  ghost predicate HandsOutRevoked(p: Policy, s: State, run: seq<Step>, k: nat, j: nat, r: Reference)
    requires k < j < |run|
  {
    && QuietSince(p, s, run[..j], k, r) && r in Run(p, s, run[..k]).withdrawn
    && OutcomeAt(p, s, run, j).HandedOut? && OutcomeAt(p, s, run, j).material.reference == r
  }

  /** One issue and the first half of its resolution, a whole revocation, and then the fetch. */
  function LateFetch(c: Capability, x: Execution): seq<Step> {
    [StartIssue(0, c.reference, x, None, c.issuedAt), FinishIssue(0, c.id, Some(c.version)),
     StartResolve(0, c, x, true, c.issuedAt), Take(0),
     StartRevoke(1, c.reference), FinishWithdraw(1), Fetch(0, Some(c.version))]
  }

  lemma RunPrefix(p: Policy, s: State, run: seq<Step>, n: nat, here: State, after: State)
    requires n < |run| && Run(p, s, run[..n]) == here && Apply(p, here, run[n]).0 == after
    ensures Run(p, s, run[..n + 1]) == after
  {
    RunExtends(p, s, run, n);
  }

  /** A capability issued for an execution, both under the binding and for its whole lifetime. */
  predicate FullTerm(p: Policy, versions: map<Reference, Version>, c: Capability, x: Execution) {
    && c.reference in p.bindings && p.bindings[c.reference] == Binding(10, true) && 1 <= p.limit
    && c.reference in versions && versions[c.reference] == c.version
    && x == Execution(c.execution, c.issuedAt, c.issuedAt + 10, true, true) && c.expiresAt == c.issuedAt + 10
  }

  function OneEntry(c: Capability, state: EntryState): Items {
    map[c.id := Entry(c, state)]
  }

  lemma IssueSteps(p: Policy, versions: map<Reference, Version>, c: Capability, x: Execution)
    requires FullTerm(p, versions, c, x)
    ensures var s1 := State(map[], versions, {}, map[0 := Issuing(c.(id := 0))]);
            && Apply(p, Initial(versions), StartIssue(0, c.reference, x, None, c.issuedAt)).0 == s1
            && Apply(p, s1, FinishIssue(0, c.id, Some(c.version))).0 == State(OneEntry(c, Stored), versions, {}, map[])
  {
    assert map[0 := Issuing(c.(id := 0))] - {0} == map[];
  }

  lemma TakeSteps(p: Policy, versions: map<Reference, Version>, c: Capability, x: Execution)
    requires FullTerm(p, versions, c, x)
    ensures var s2 := State(OneEntry(c, Stored), versions, {}, map[]);
            var s3 := State(OneEntry(c, Stored), versions, {}, map[0 := Resolving(c, c.issuedAt)]);
            && Apply(p, s2, StartResolve(0, c, x, true, c.issuedAt)).0 == s3
            && Apply(p, s3, Take(0)).0 == State(OneEntry(c, Consumed), versions, {}, map[0 := Fetching(c)])
  {
    assert OneEntry(c, Stored)[c.id := Entry(c, Consumed)] == OneEntry(c, Consumed);
    assert map[0 := Resolving(c, c.issuedAt)][0 := Fetching(c)] == map[0 := Fetching(c)];
  }

  lemma RevokeSteps(p: Policy, versions: map<Reference, Version>, c: Capability)
    ensures var s4 := State(OneEntry(c, Consumed), versions, {}, map[0 := Fetching(c)]);
            var s5 := State(OneEntry(c, Consumed), versions, {c.reference},
                            map[0 := Fetching(c), 1 := Withdrawing(c.reference)]);
            && Apply(p, s4, StartRevoke(1, c.reference)).0 == s5
            && Apply(p, s5, FinishWithdraw(1)).0
               == State(OneEntry(c, Consumed), versions, {c.reference}, map[0 := Fetching(c)])
  {
    assert RevokeReference(OneEntry(c, Consumed), c.reference) == OneEntry(c, Consumed);
    assert map[0 := Fetching(c), 1 := Withdrawing(c.reference)] - {1} == map[0 := Fetching(c)];
  }

  /** The state in which the capability has just been used up. */
  lemma FirstFour(p: Policy, versions: map<Reference, Version>, c: Capability, x: Execution)
    requires FullTerm(p, versions, c, x)
    ensures Run(p, Initial(versions), LateFetch(c, x)[..4])
            == State(OneEntry(c, Consumed), versions, {}, map[0 := Fetching(c)])
  {
    var run := LateFetch(c, x);
    var s0 := Initial(versions);
    IssueSteps(p, versions, c, x);
    TakeSteps(p, versions, c, x);
    assert run[..0] == [];
    var s1 := Apply(p, s0, run[0]).0;
    RunPrefix(p, s0, run, 0, s0, s1);
    var s2 := Apply(p, s1, run[1]).0;
    RunPrefix(p, s0, run, 1, s1, s2);
    var s3 := Apply(p, s2, run[2]).0;
    RunPrefix(p, s0, run, 2, s2, s3);
    RunPrefix(p, s0, run, 3, s3, Apply(p, s3, run[3]).0);
  }

  /** The states in which the revocation is about to reach the store, and has reached it. */
  lemma LastTwo(p: Policy, versions: map<Reference, Version>, c: Capability, x: Execution)
    requires Run(p, Initial(versions), LateFetch(c, x)[..4])
             == State(OneEntry(c, Consumed), versions, {}, map[0 := Fetching(c)])
    ensures Run(p, Initial(versions), LateFetch(c, x)[..5])
            == State(OneEntry(c, Consumed), versions, {c.reference},
                     map[0 := Fetching(c), 1 := Withdrawing(c.reference)])
    ensures Run(p, Initial(versions), LateFetch(c, x)[..6])
            == State(OneEntry(c, Consumed), versions, {c.reference}, map[0 := Fetching(c)])
  {
    var run := LateFetch(c, x);
    var s0 := Initial(versions);
    RevokeSteps(p, versions, c);
    var s4 := Run(p, s0, run[..4]);
    var s5 := Apply(p, s4, run[4]).0;
    RunPrefix(p, s0, run, 4, s4, s5);
    RunPrefix(p, s0, run, 5, s5, Apply(p, s5, run[5]).0);
  }

  /** The failing case: a call that used its capability up before the revocation hands the material out after it. */
  lemma MaterialAfterRevocation(p: Policy, versions: map<Reference, Version>, c: Capability, x: Execution)
    requires FullTerm(p, versions, c, x)
    ensures HandsOutRevoked(p, Initial(versions), LateFetch(c, x), 5, 6, c.reference)
  {
    FirstFour(p, versions, c, x);
    LastTwo(p, versions, c, x);
    assert LateFetch(c, x)[..6][..5] == LateFetch(c, x)[..5];
  }
}
