/** Capabilities under interleaved issue, resolve, revoke and rotate. */
module CredentialInvariants {
  import opened Wrappers
  import opened CredentialModel

  /******* The store on its own *******/

  /** How an entry may change: its capability never, its state only away from Stored or out of Expired. */
  predicate EntryMoves(before: Entry, after: Entry) {
    && after.capability == before.capability
    && (after.state == before.state || before.state == Stored || (before.state == Expired && after.state == Consumed))
  }

  ghost predicate ItemsMove(before: Items, after: Items) {
    forall i :: i in before ==> i in after && EntryMoves(before[i], after[i])
  }

  ghost predicate ItemsOk(items: Items, limit: nat) {
    |items| <= limit && forall i :: i in items ==> items[i].capability.id == i
  }

  lemma RegisterMoves(items: Items, limit: nat, c: Capability)
    requires ItemsOk(items, limit)
    ensures var (after, result) := Register(items, limit, c);
            && ItemsMove(items, after) && ItemsOk(after, limit)
            && (result == Registered <==> after != items)
  {
    if c.id !in items && |items| < limit { assert c.id in items[c.id := Entry(c, Stored)]; }
  }

  lemma ConsumeMoves(items: Items, limit: nat, c: Capability, now: int)
    requires ItemsOk(items, limit)
    ensures var (after, result) := Consume(items, c, now);
            && ItemsMove(items, after) && ItemsOk(after, limit)
            && (result == Taken <==>
                  && c.id in items && items[c.id].capability == c
                  && items[c.id].state in {Stored, Expired} && now < c.expiresAt)
            && (result == Taken ==> c.id in after && after[c.id] == Entry(c, Consumed))
  {
    if c.id in items { assert |items[c.id := Entry(c, Expired)]| == |items[c.id := Entry(c, Consumed)]| == |items|; }
  }

  lemma SameKeysSameSize(before: Items, after: Items)
    requires before.Keys == after.Keys
    ensures |before| == |after|
  {
    assert |before| == |before.Keys| && |after| == |after.Keys|;
  }

  lemma RevokeMoves(items: Items, limit: nat, r: Reference)
    requires ItemsOk(items, limit)
    ensures ItemsMove(items, RevokeReference(items, r)) && ItemsOk(RevokeReference(items, r), limit)
    ensures forall i :: i in items && items[i].capability.reference == r ==>
              RevokeReference(items, r)[i].state != Stored
  {
    SameKeysSameSize(items, RevokeReference(items, r));
  }

  /**
   An expired entry is final exactly while the clock does not go back: consuming it again succeeds if and
   only if the time presented is before the expiry the entry has already been found past.
   */
  lemma ExpiredReopensIff(items: Items, c: Capability, first: int, second: int)
    requires c.id in items && items[c.id] == Entry(c, Stored) && first >= c.expiresAt
    ensures var (expired, result) := Consume(items, c, first);
            && result == TooLate
            && (Consume(expired, c, second).1 == Taken <==> second < c.expiresAt)
            && (first <= second ==> Consume(expired, c, second) == (expired, TooLate))
  {
    var expired := Consume(items, c, first).0;
    assert expired[c.id := Entry(c, Expired)] == expired;
  }

  /******* The broker over the store *******/

  ghost predicate StateOk(p: Policy, s: State) {
    && ItemsOk(s.items, p.limit)
    && (forall i :: i in s.items ==> s.items[i].state != Expired)
    && (forall t :: t in s.calls && s.calls[t].Resolving? ==> s.calls[t].now < s.calls[t].capability.expiresAt)
    && FetchesOk(s)
  }

  /** Calls that fetch material have used up different capabilities. */
  ghost predicate FetchesOk(s: State) {
    && (forall t :: t in s.calls && s.calls[t].Fetching? ==> UsedBy(s.items, s.calls[t].taken))
    && (forall t, u :: t in s.calls && u in s.calls && s.calls[t].Fetching? && s.calls[u].Fetching? && t != u ==>
          s.calls[t].taken.id != s.calls[u].taken.id)
  }

  predicate UsedBy(items: Items, c: Capability) {
    c.id in items && items[c.id] == Entry(c, Consumed)
  }

  /** Through the broker an entry leaves Stored for Consumed or Revoked, and then never moves again. */
  predicate EntryAdvances(before: Entry, after: Entry) {
    && after.capability == before.capability
    && (after == before || (before.state == Stored && after.state in {Consumed, Revoked}))
  }

  ghost predicate ItemsAdvance(before: Items, after: Items) {
    forall i :: i in before ==> i in after && EntryAdvances(before[i], after[i])
  }

  lemma FinishIssueKeeps(p: Policy, s: State, t: int, id: CapabilityId, vaultVersion: Option<Version>)
    requires StateOk(p, s)
    ensures var after := Apply(p, s, FinishIssue(t, id, vaultVersion)).0;
            StateOk(p, after) && ItemsAdvance(s.items, after.items)
  {
    if t in s.calls && s.calls[t].Issuing? { RegisterMoves(s.items, p.limit, s.calls[t].draft.(id := id)); }
  }

  lemma TakeKeeps(p: Policy, s: State, t: int)
    requires StateOk(p, s)
    ensures var after := Apply(p, s, Take(t)).0; StateOk(p, after) && ItemsAdvance(s.items, after.items)
  {
    if t in s.calls && s.calls[t].Resolving? {
      ConsumeMoves(s.items, p.limit, s.calls[t].capability, s.calls[t].now);
    }
  }

  lemma FinishWithdrawKeeps(p: Policy, s: State, t: int)
    requires StateOk(p, s)
    ensures var after := Apply(p, s, FinishWithdraw(t)).0; StateOk(p, after) && ItemsAdvance(s.items, after.items)
  {
    if t in s.calls && s.calls[t].Withdrawing? { RevokeMoves(s.items, p.limit, s.calls[t].reference); }
  }

  lemma StepKeepsState(p: Policy, s: State, step: Step)
    requires StateOk(p, s)
    ensures StateOk(p, Apply(p, s, step).0) && ItemsAdvance(s.items, Apply(p, s, step).0.items)
  {
    match step
    case StartIssue(_, _, _, _, _) =>
    case FinishIssue(t, id, vaultVersion) => FinishIssueKeeps(p, s, t, id, vaultVersion);
    case StartResolve(_, _, _, _, _) =>
    case Take(t) => TakeKeeps(p, s, t);
    case Fetch(_, _) =>
    case StartRevoke(_, _) =>
    case StartRotate(_, _, _) =>
    case FinishWithdraw(t) => FinishWithdrawKeeps(p, s, t);
  }

  /**
   In every reachable broker no entry has expired in the store: each resolution tests the same expiry at
   the same time before it reaches the store. An entry only ever moves from Stored to Consumed or Revoked.
   */
  lemma {:induction false} RunKeepsState(p: Policy, s: State, run: seq<Step>)
    requires StateOk(p, s)
    ensures StateOk(p, Run(p, s, run)) && ItemsAdvance(s.items, Run(p, s, run).items)
  {
    if run != [] {
      RunKeepsState(p, s, run[..|run| - 1]);
      StepKeepsState(p, Run(p, s, run[..|run| - 1]), run[|run| - 1]);
    }
  }

  lemma ReachableStateOk(p: Policy, versions: map<Reference, Version>, run: seq<Step>)
    ensures StateOk(p, Run(p, Initial(versions), run))
  {
    RunKeepsState(p, Initial(versions), run);
  }

  lemma UsedWasStored(p: Policy, s: State, step: Step)
    requires StateOk(p, s) && Apply(p, s, step).1.UsedUp?
    ensures step.Take?
    ensures var c := Apply(p, s, step).1.taken;
            && c.id in s.items && s.items[c.id] == Entry(c, Stored)
            && UsedBy(Apply(p, s, step).0.items, c)
  {
    ConsumeMoves(s.items, p.limit, s.calls[step.t].capability, s.calls[step.t].now);
  }

  lemma RunSplits(p: Policy, s: State, run: seq<Step>, k: nat)
    requires k <= |run|
    ensures Run(p, s, run) == Run(p, Run(p, s, run[..k]), run[k..])
    decreases |run|
  {
    if k == |run| {
      assert run[..k] == run;
    } else {
      var last := |run| - 1;
      RunSplits(p, s, run[..last], k);
      assert run[..last][..k] == run[..k] && run[..last][k..] == run[k..][..last - k];
      assert run[k..][last - k] == run[last];
    }
  }

  lemma RunExtends(p: Policy, s: State, run: seq<Step>, k: nat)
    requires k < |run|
    ensures Run(p, s, run[..k + 1]) == Apply(p, Run(p, s, run[..k]), run[k]).0
  {
    assert run[..k + 1][..k] == run[..k];
  }

  /** Nothing registered but no longer Stored at one point of a run is used up at or after it. */
  lemma DeadIsNeverUsed(p: Policy, s: State, run: seq<Step>, k: nat, j: nat, id: CapabilityId)
    requires StateOk(p, s) && k <= j < |run|
    requires id in Run(p, s, run[..k]).items && Run(p, s, run[..k]).items[id].state != Stored
    ensures OutcomeAt(p, s, run, j).UsedUp? ==> OutcomeAt(p, s, run, j).taken.id != id
  {
    var early := run[..k];
    RunKeepsState(p, s, early);
    var before := run[..j];
    assert before[..k] == early;
    RunSplits(p, s, before, k);
    RunKeepsState(p, Run(p, s, early), before[k..]);
    if OutcomeAt(p, s, run, j).UsedUp? { UsedWasStored(p, Run(p, s, before), run[j]); }
    assert EntryAdvances(Run(p, s, early).items[id], Run(p, s, before).items[id]);
  }

  /** Each capability is used up at most once. */
  lemma UsedAtMostOnce(p: Policy, s: State, run: seq<Step>, i: nat, j: nat)
    requires StateOk(p, s) && i < j < |run|
    ensures OutcomeAt(p, s, run, i).UsedUp? && OutcomeAt(p, s, run, j).UsedUp? ==>
              OutcomeAt(p, s, run, i).taken.id != OutcomeAt(p, s, run, j).taken.id
  {
    if OutcomeAt(p, s, run, i).UsedUp? && OutcomeAt(p, s, run, j).UsedUp? {
      RunKeepsState(p, s, run[..i]);
      UsedWasStored(p, Run(p, s, run[..i]), run[i]);
      RunExtends(p, s, run, i);
      DeadIsNeverUsed(p, s, run, i + 1, j, OutcomeAt(p, s, run, i).taken.id);
    }
  }

  /** The step with which a revocation or rotation of `r` reaches the store. */
  predicate ReachesStore(p: Policy, s: State, run: seq<Step>, k: nat, r: Reference)
    requires k < |run|
  {
    && run[k].FinishWithdraw?
    && var before := Run(p, s, run[..k]); run[k].t in before.calls && before.calls[run[k].t] == Withdrawing(r)
  }

  /** A capability registered before a revocation or rotation reaches the store is never used up after it. */
  lemma RegisteredBeforeNeverUsedAfter(p: Policy, s: State, run: seq<Step>, k: nat, j: nat, id: CapabilityId)
    requires StateOk(p, s) && k < j < |run|
    requires id in Run(p, s, run[..k]).items
    requires ReachesStore(p, s, run, k, Run(p, s, run[..k]).items[id].capability.reference)
    ensures OutcomeAt(p, s, run, j).UsedUp? ==> OutcomeAt(p, s, run, j).taken.id != id
  {
    var before := Run(p, s, run[..k]);
    RunKeepsState(p, s, run[..k]);
    RevokeMoves(before.items, p.limit, before.items[id].capability.reference);
    RunExtends(p, s, run, k);
    DeadIsNeverUsed(p, s, run, k + 1, j, id);
  }

  /******* What is used up after a withdrawal has completed *******/

  predicate Dead(items: Items, c: Capability) {
    c.id !in items || items[c.id].capability != c || items[c.id].state != Stored
  }

  /** Every resolution of `r` in progress is of a current capability, or bound to fail. */
  ghost predicate Purged(s: State, r: Reference) {
    forall t :: t in s.calls && s.calls[t].Resolving? && s.calls[t].capability.reference == r ==>
      Current(s, r, s.calls[t].capability.version) || Dead(s.items, s.calls[t].capability)
  }

  /** A fresh UUID: not registered, and not named by a resolution in progress. */
  ghost predicate Unseen(s: State, id: CapabilityId) {
    id !in s.items && forall t :: t in s.calls && s.calls[t].Resolving? ==> s.calls[t].capability.id != id
  }

  predicate ChangesTables(step: Step, r: Reference) {
    (step.StartRevoke? || step.StartRotate?) && step.reference == r
  }

  lemma WithdrawalPurges(p: Policy, s: State, t: int)
    requires StateOk(p, s) && t in s.calls && s.calls[t].Withdrawing?
    ensures Purged(Apply(p, s, FinishWithdraw(t)).0, s.calls[t].reference)
  {
    RevokeMoves(s.items, p.limit, s.calls[t].reference);
  }

  lemma DeadStaysDead(s: State, after: Items, c: Capability)
    requires Dead(s.items, c) && ItemsAdvance(s.items, after) && (c.id !in s.items ==> c.id !in after)
    ensures Dead(after, c)
  {
  }

  lemma FinishIssuePurged(p: Policy, s: State, t: int, id: CapabilityId, vaultVersion: Option<Version>, r: Reference)
    requires StateOk(p, s) && Purged(s, r) && Unseen(s, id)
    ensures Purged(Apply(p, s, FinishIssue(t, id, vaultVersion)).0, r)
  {
  }

  lemma TakePurged(p: Policy, s: State, t: int, r: Reference)
    requires StateOk(p, s) && Purged(s, r)
    ensures Purged(Apply(p, s, Take(t)).0, r)
  {
    if t in s.calls && s.calls[t].Resolving? {
      var c := s.calls[t].capability;
      var after := Consume(s.items, c, s.calls[t].now).0;
      TakeKeeps(p, s, t);
      forall d | Dead(s.items, d) ensures Dead(after, d) { DeadStaysDead(s, after, d); }
    }
  }

  lemma FinishWithdrawPurged(p: Policy, s: State, t: int, r: Reference)
    requires StateOk(p, s) && Purged(s, r)
    ensures Purged(Apply(p, s, FinishWithdraw(t)).0, r)
  {
    if t in s.calls && s.calls[t].Withdrawing? {
      var after := RevokeReference(s.items, s.calls[t].reference);
      FinishWithdrawKeeps(p, s, t);
      forall d | Dead(s.items, d) ensures Dead(after, d) { DeadStaysDead(s, after, d); }
    }
  }

  lemma StepKeepsPurged(p: Policy, s: State, step: Step, r: Reference)
    requires StateOk(p, s) && Purged(s, r) && !ChangesTables(step, r)
    requires step.FinishIssue? ==> Unseen(s, step.id)
    ensures Purged(Apply(p, s, step).0, r)
  {
    match step
    case StartIssue(_, _, _, _, _) =>
    case FinishIssue(t, id, vaultVersion) => FinishIssuePurged(p, s, t, id, vaultVersion, r);
    case StartResolve(_, _, _, _, _) =>
    case Take(t) => TakePurged(p, s, t, r);
    case Fetch(_, _) =>
    case StartRevoke(_, _) =>
    case StartRotate(_, _, _) =>
    case FinishWithdraw(t) => FinishWithdrawPurged(p, s, t, r);
  }

  /** From the end of a withdrawal of `r` on, with fresh ids and no further change to its tables. */
  ghost predicate QuietSince(p: Policy, s: State, run: seq<Step>, k: nat, r: Reference)
    requires k < |run|
  {
    && ReachesStore(p, s, run, k, r)
    && (forall i :: k < i < |run| ==> !ChangesTables(run[i], r))
    && (forall i :: k < i < |run| && run[i].FinishIssue? ==> Unseen(Run(p, s, run[..i]), run[i].id))
  }

  lemma QuietPrefix(p: Policy, s: State, run: seq<Step>, k: nat, r: Reference)
    requires k < |run| - 1 && QuietSince(p, s, run, k, r)
    ensures QuietSince(p, s, run[..|run| - 1], k, r)
    ensures !ChangesTables(run[|run| - 1], r)
    ensures run[|run| - 1].FinishIssue? ==> Unseen(Run(p, s, run[..|run| - 1]), run[|run| - 1].id)
  {
    var before := run[..|run| - 1];
    forall i | 0 <= i < |before| ensures before[i] == run[i] && before[..i] == run[..i] {
    }
  }

  lemma StorePurges(p: Policy, s: State, run: seq<Step>, r: Reference)
    requires StateOk(p, s) && run != [] && ReachesStore(p, s, run, |run| - 1, r)
    ensures Purged(Run(p, s, run), r)
  {
    var before := run[..|run| - 1];
    RunKeepsState(p, s, before);
    WithdrawalPurges(p, Run(p, s, before), run[|run| - 1].t);
  }

  lemma QuietStepPurged(p: Policy, s: State, run: seq<Step>, r: Reference)
    requires StateOk(p, s) && run != [] && Purged(Run(p, s, run[..|run| - 1]), r) && !ChangesTables(run[|run| - 1], r)
    requires run[|run| - 1].FinishIssue? ==> Unseen(Run(p, s, run[..|run| - 1]), run[|run| - 1].id)
    ensures Purged(Run(p, s, run), r)
  {
    RunKeepsState(p, s, run[..|run| - 1]);
    StepKeepsPurged(p, Run(p, s, run[..|run| - 1]), run[|run| - 1], r);
  }

  lemma {:induction false} QuietStaysPurged(p: Policy, s: State, run: seq<Step>, k: nat, r: Reference)
    requires StateOk(p, s) && k < |run| && QuietSince(p, s, run, k, r)
    ensures Purged(Run(p, s, run), r)
    decreases |run|
  {
    if k == |run| - 1 {
      StorePurges(p, s, run, r);
    } else {
      QuietPrefix(p, s, run, k, r);
      QuietStaysPurged(p, s, run[..|run| - 1], k, r);
      QuietStepPurged(p, s, run, r);
    }
  }

  lemma PurgedUsesCurrent(p: Policy, s: State, step: Step)
    requires StateOk(p, s) && Apply(p, s, step).1.UsedUp? && Purged(s, Apply(p, s, step).1.taken.reference)
    ensures var c := Apply(p, s, step).1.taken; Current(s, c.reference, c.version)
  {
    UsedWasStored(p, s, step);
  }

  /**
   Once a revocation or rotation of a reference has reached the store, and until its tables change again,
   only capabilities of an unrevoked reference and its current version are used up, including by calls
   that passed their checks before the withdrawal and by capabilities issued around it.
   */
  lemma UsedIsCurrent(p: Policy, s: State, run: seq<Step>, k: nat, j: nat, r: Reference)
    requires StateOk(p, s) && k < j < |run| && QuietSince(p, s, run[..j], k, r)
    requires OutcomeAt(p, s, run, j).UsedUp? && OutcomeAt(p, s, run, j).taken.reference == r
    ensures Current(Run(p, s, run[..j]), r, OutcomeAt(p, s, run, j).taken.version)
  {
    RunKeepsState(p, s, run[..j]);
    QuietStaysPurged(p, s, run[..j], k, r);
    PurgedUsesCurrent(p, Run(p, s, run[..j]), run[j]);
  }

  lemma StepKeepsWithdrawn(p: Policy, s: State, step: Step, r: Reference)
    requires r in s.withdrawn && !ChangesTables(step, r)
    ensures r in Apply(p, s, step).0.withdrawn
  {
    match step
    case StartIssue(_, _, _, _, _) =>
    case FinishIssue(_, _, _) =>
    case StartResolve(_, _, _, _, _) =>
    case Take(_) =>
    case Fetch(_, _) =>
    case StartRevoke(_, _) =>
    case StartRotate(_, _, _) =>
    case FinishWithdraw(_) =>
  }

  lemma {:induction false} WithdrawnStays(p: Policy, s: State, run: seq<Step>, r: Reference)
    requires r in s.withdrawn && forall i :: 0 <= i < |run| ==> !ChangesTables(run[i], r)
    ensures r in Run(p, s, run).withdrawn
  {
    if run != [] {
      var before := run[..|run| - 1];
      assert forall i :: 0 <= i < |before| ==> before[i] == run[i];
      WithdrawnStays(p, s, before, r);
      StepKeepsWithdrawn(p, Run(p, s, before), run[|run| - 1], r);
    }
  }

  /** After a revocation has completed nothing of the reference is used up until it is rotated. */
  lemma RevokedNeverUsed(p: Policy, s: State, run: seq<Step>, k: nat, j: nat, r: Reference)
    requires StateOk(p, s) && k < j < |run| && QuietSince(p, s, run[..j], k, r)
    requires r in Run(p, s, run[..k]).withdrawn
    ensures OutcomeAt(p, s, run, j).UsedUp? ==> OutcomeAt(p, s, run, j).taken.reference != r
  {
    var o := OutcomeAt(p, s, run, j);
    if o.UsedUp? && o.taken.reference == r {
      var before := run[..j];
      UsedIsCurrent(p, s, run, k, j, r);
      assert before[..k] == run[..k];
      RunSplits(p, s, before, k);
      var rest := before[k..];
      forall i | 0 <= i < |rest| ensures !ChangesTables(rest[i], r) {
        assert rest[i] == before[k + i];
      }
      WithdrawnStays(p, Run(p, s, run[..k]), rest, r);
    }
  }
}
