/** What every run of the tool authoriser keeps of a session's budget. */
module ToolInvariants {
  import opened Wrappers
  import opened ToolModel

  /******* Sequencing *******/

  /** May a call of `next` follow the last verified call of `history`? */
  predicate MayFollow(p: Semantics, verified: map<LeaseId, Execution>, history: seq<LeaseId>, next: Tool) {
    history == []
    || !p.denyTransitions
    || (history[|history| - 1] in verified && (verified[history[|history| - 1]].tool, next) in p.transitions)
  }

  /** Every entry is a verified call of the chain, and every adjacent pair is an allowed transition. */
  predicate HistoryOk(p: Semantics, verified: map<LeaseId, Execution>, chain: Chain, history: seq<LeaseId>) {
    && (forall i :: 0 <= i < |history| ==> history[i] in verified && verified[history[i]].chain == chain)
    && (p.denyTransitions ==>
          forall i :: 0 <= i < |history| - 1 ==>
            (verified[history[i]].tool, verified[history[i + 1]].tool) in p.transitions)
  }

  ghost predicate SequencingOk(p: Semantics, b: Budget) {
    && b.activeSemantic.Keys == b.active
    && (forall i, j :: i in b.activeSemantic && j in b.activeSemantic && i != j ==>
          b.activeSemantic[i].chain != b.activeSemantic[j].chain)
    && (forall i :: i in b.activeSemantic ==> b.activeSemantic[i].chain !in b.quarantined && i !in b.verified)
    && (forall i :: i in b.activeSemantic ==>
          MayFollow(p, b.verified, HistoryOf(b.history, b.activeSemantic[i].chain), b.activeSemantic[i].tool))
    && (forall c :: c in b.history ==> HistoryOk(p, b.verified, c, b.history[c]))
  }

  /** An id the budget has never seen. */
  predicate Unseen(b: Budget, id: LeaseId) {
    id !in b.active && id !in b.verified && id !in b.activeSemantic
  }

  lemma ReserveKeepsSequencing(p: Policy, b: Budget, r: Request, consume: bool, id: LeaseId)
    requires p.semantics.Some? && SequencingOk(p.semantics.value, b) && Unseen(b, id)
    requires r.chain !in b.quarantined && !ChainBusy(b, r.chain)
    requires MayFollow(p.semantics.value, b.verified, HistoryOf(b.history, r.chain), r.tool)
    ensures SequencingOk(p.semantics.value, Reserve(p, b, r, consume, id))
  {
  }

  lemma AuthorizeKeepsSequencing(p: Policy, b: Budget, r: Request, prechecked: bool, consume: bool, id: LeaseId)
    requires p.semantics.Some? && SequencingOk(p.semantics.value, b) && Unseen(b, id)
    ensures SequencingOk(p.semantics.value, Authorize(p, b, r, prechecked, consume, id).0)
  {
    if AuthorizeOk(p, b, r, prechecked, consume) { ReserveKeepsSequencing(p, b, r, consume, id); }
  }

  lemma HistoryGrows(p: Semantics, verified: map<LeaseId, Execution>, chain: Chain, history: seq<LeaseId>,
                     id: LeaseId, x: Execution)
    requires HistoryOk(p, verified, chain, history) && id !in verified && x.chain == chain
    requires MayFollow(p, verified, history, x.tool)
    ensures HistoryOk(p, verified[id := x], chain, history + [id])
  {
    var longer := history + [id];
    if p.denyTransitions {
      forall i | 0 <= i < |longer| - 1
        ensures (verified[id := x][longer[i]].tool, verified[id := x][longer[i + 1]].tool) in p.transitions
      {
        if i == |history| - 1 { assert longer[i] == history[|history| - 1]; }
      }
    }
  }

  lemma VerifyKeepsSequencing(p: Semantics, b: Budget, id: LeaseId, report: Report)
    requires SequencingOk(p, b)
    ensures SequencingOk(p, VerifyCompletion(b, id, report).0)
  {
    if id in b.activeSemantic && report.accepted && report.succeeded {
      var r := b.activeSemantic[id];
      var x := Execution(r.tool, r.chain, r.intent, report.resources, report.outputs);
      var after := VerifyCompletion(b, id, report).0;
      if r.chain in b.history { assert HistoryOk(p, b.verified, r.chain, b.history[r.chain]); }
      HistoryGrows(p, b.verified, r.chain, HistoryOf(b.history, r.chain), id, x);
      forall c | c in after.history ensures HistoryOk(p, after.verified, c, after.history[c]) {
        if c != r.chain { assert HistoryOk(p, b.verified, c, b.history[c]); }
      }
      forall i | i in after.activeSemantic
        ensures MayFollow(p, after.verified, HistoryOf(after.history, after.activeSemantic[i].chain),
                          after.activeSemantic[i].tool)
      {
        assert after.activeSemantic[i].chain != r.chain;
      }
    }
  }

  lemma StepKeepsSequencing(p: Policy, b: Budget, step: Step)
    requires p.semantics.Some? && SequencingOk(p.semantics.value, b)
    requires step.DoAuthorize? ==> Unseen(b, step.id)
    ensures SequencingOk(p.semantics.value, Apply(p, b, step).0)
  {
    match step
    case DoAuthorize(r, prechecked, consume, id) => AuthorizeKeepsSequencing(p, b, r, prechecked, consume, id);
    case DoComplete(session, id) =>
    case DoVerify(id, report) => VerifyKeepsSequencing(p.semantics.value, b, id, report);
  }

  /******* What one step can touch *******/

  predicate ReleasesLease(o: Outcome) {
    o.Released? || o.Settled?
  }

  function LeaseOf(o: Outcome): LeaseId
    requires ReleasesLease(o)
  {
    if o.Released? then o.lease else o.closed
  }

  /** How the leases and the consumed approvals of a budget move with the outcome of a step. */
  predicate Moves(b: Budget, step: Step, after: Budget, o: Outcome) {
    && (o.Refused? ==> after == b)
    && (o.Granted? ==>
          && step.DoAuthorize? && o.id == step.id
          && after.active == b.active + {step.id}
          && after.activeSemantic.Keys <= b.activeSemantic.Keys + {step.id}
          && after.verified == b.verified
          && b.usedApprovals <= after.usedApprovals)
    && (ReleasesLease(o) ==>
          && LeaseOf(o) in b.active
          && after.active == b.active - {LeaseOf(o)}
          && after.activeSemantic.Keys <= b.activeSemantic.Keys
          && after.verified.Keys <= b.verified.Keys + {LeaseOf(o)}
          && after.usedApprovals == b.usedApprovals)
  }

  lemma AuthorizeMoves(p: Policy, b: Budget, r: Request, prechecked: bool, consume: bool, id: LeaseId)
    ensures var (after, o) := Authorize(p, b, r, prechecked, consume, id);
            Moves(b, DoAuthorize(r, prechecked, consume, id), after, o)
  {
  }

  lemma CompleteMoves(b: Budget, session: int, id: LeaseId)
    ensures var (after, o) := Complete(b, session, id); Moves(b, DoComplete(session, id), after, o)
  {
  }

  lemma VerifyMoves(b: Budget, id: LeaseId, report: Report)
    ensures var (after, o) := VerifyCompletion(b, id, report); Moves(b, DoVerify(id, report), after, o)
  {
  }

  lemma StepMoves(p: Policy, b: Budget, step: Step)
    ensures var (after, o) := Apply(p, b, step); Moves(b, step, after, o)
  {
    match step
    case DoAuthorize(r, prechecked, consume, id) => AuthorizeMoves(p, b, r, prechecked, consume, id);
    case DoComplete(session, id) => CompleteMoves(b, session, id);
    case DoVerify(id, report) => VerifyMoves(b, id, report);
  }

  /******* Fresh ids over a run *******/

  lemma FreshPrefix(run: seq<Step>)
    requires run != [] && FreshIds(run)
    ensures FreshIds(run[..|run| - 1])
  {
  }

  /** `id` was offered to some authorisation of the run. */
  predicate Offered(run: seq<Step>, id: LeaseId) {
    exists i :: 0 <= i < |run| && run[i].DoAuthorize? && run[i].id == id
  }

  lemma OfferedLater(run: seq<Step>, id: LeaseId)
    requires run != [] && Offered(run[..|run| - 1], id)
    ensures Offered(run, id)
  {
    var before := run[..|run| - 1];
    var i :| 0 <= i < |before| && before[i].DoAuthorize? && before[i].id == id;
    assert run[i].id == id;
  }

  /** Everything the budget has seen was offered to an authorisation. */
  ghost predicate SeenOffered(b: Budget, run: seq<Step>) {
    forall id :: id in b.active || id in b.verified || id in b.activeSemantic ==> Offered(run, id)
  }

  lemma StepSeen(p: Policy, b: Budget, run: seq<Step>)
    requires run != [] && SeenOffered(b, run[..|run| - 1])
    ensures SeenOffered(Apply(p, b, run[|run| - 1]).0, run)
  {
    var step := run[|run| - 1];
    StepMoves(p, b, step);
    forall id | Offered(run[..|run| - 1], id) ensures Offered(run, id) { OfferedLater(run, id); }
    if step.DoAuthorize? { assert Offered(run, step.id); }
  }

  lemma {:induction false} SeenWasOffered(p: Policy, session: int, run: seq<Step>)
    ensures SeenOffered(Run(p, session, run), run)
  {
    if run != [] {
      var before := run[..|run| - 1];
      SeenWasOffered(p, session, before);
      StepSeen(p, Run(p, session, before), run);
    }
  }

  lemma OfferedIsUnseen(p: Policy, session: int, run: seq<Step>)
    requires run != [] && FreshIds(run) && run[|run| - 1].DoAuthorize?
    ensures Unseen(Run(p, session, run[..|run| - 1]), run[|run| - 1].id)
  {
    var before := run[..|run| - 1];
    SeenWasOffered(p, session, before);
    assert forall i :: 0 <= i < |before| && before[i].DoAuthorize? ==> before[i].id != run[|run| - 1].id;
  }

  /**
   In every reachable budget at most one semantic call per chain is in flight, every history entry is a
   verified call of its chain, and adjacent entries are allowed transitions, although a transition is
   checked when a call is authorised and recorded only when it completes.
   */
  lemma {:induction false} ReachableSequencing(p: Policy, session: int, run: seq<Step>)
    requires p.semantics.Some? && FreshIds(run)
    ensures SequencingOk(p.semantics.value, Run(p, session, run))
  {
    if run != [] {
      FreshPrefix(run);
      ReachableSequencing(p, session, run[..|run| - 1]);
      if run[|run| - 1].DoAuthorize? { OfferedIsUnseen(p, session, run); }
      StepKeepsSequencing(p, Run(p, session, run[..|run| - 1]), run[|run| - 1]);
    }
  }

  /******* Quarantine *******/

  /** The chain is quarantined, has nothing in flight, and has this history. */
  predicate FrozenAt(b: Budget, chain: Chain, history: seq<LeaseId>) {
    chain in b.quarantined && !ChainBusy(b, chain) && HistoryOf(b.history, chain) == history
  }

  lemma AuthorizeKeepsFrozen(p: Policy, b: Budget, r: Request, prechecked: bool, consume: bool, id: LeaseId,
                             chain: Chain, history: seq<LeaseId>)
    requires p.semantics.Some? && FrozenAt(b, chain, history)
    ensures FrozenAt(Authorize(p, b, r, prechecked, consume, id).0, chain, history)
    ensures r.chain == chain ==> Authorize(p, b, r, prechecked, consume, id).1 == Refused
  {
    var after := Authorize(p, b, r, prechecked, consume, id).0;
    forall i | i in after.activeSemantic ensures after.activeSemantic[i].chain != chain {
      assert i in b.activeSemantic ==> b.activeSemantic[i].chain != chain;
    }
  }

  lemma VerifyKeepsFrozen(b: Budget, id: LeaseId, report: Report, chain: Chain, history: seq<LeaseId>)
    requires FrozenAt(b, chain, history)
    ensures FrozenAt(VerifyCompletion(b, id, report).0, chain, history)
  {
    forall i | i in b.activeSemantic ensures b.activeSemantic[i].chain != chain {
    }
  }

  lemma StepKeepsFrozen(p: Policy, b: Budget, step: Step, chain: Chain, history: seq<LeaseId>)
    requires p.semantics.Some? && FrozenAt(b, chain, history)
    ensures FrozenAt(Apply(p, b, step).0, chain, history)
    ensures step.DoAuthorize? && step.request.chain == chain ==> Apply(p, b, step).1 == Refused
  {
    match step
    case DoAuthorize(r, prechecked, consume, id) => AuthorizeKeepsFrozen(p, b, r, prechecked, consume, id, chain, history);
    case DoComplete(session, id) =>
    case DoVerify(id, report) => VerifyKeepsFrozen(b, id, report, chain, history);
  }

  /** Once quarantined, a chain's history never changes and no further call of it is authorised. */
  lemma {:induction false} QuarantineIsForever(p: Policy, session: int, run: seq<Step>, k: nat, chain: Chain)
    requires p.semantics.Some? && FreshIds(run) && k <= |run|
    requires chain in Run(p, session, run[..k]).quarantined
    ensures FrozenAt(Run(p, session, run), chain, HistoryOf(Run(p, session, run[..k]).history, chain))
    ensures forall i :: k <= i < |run| && run[i].DoAuthorize? && run[i].request.chain == chain ==>
              OutcomeAt(p, session, run, i) == Refused
    decreases |run|
  {
    if k == |run| {
      assert run[..k] == run;
      ReachableSequencing(p, session, run);
    } else {
      var last := |run| - 1;
      var before := run[..last];
      FreshPrefix(run);
      assert before[..k] == run[..k];
      QuarantineIsForever(p, session, before, k, chain);
      StepKeepsFrozen(p, Run(p, session, before), run[last], chain,
                      HistoryOf(Run(p, session, run[..k]).history, chain));
      forall i | k <= i < |run| && run[i].DoAuthorize? && run[i].request.chain == chain
        ensures OutcomeAt(p, session, run, i) == Refused
      {
        if i < last {
          assert before[i] == run[i] && before[..i] == run[..i];
          assert OutcomeAt(p, session, before, i) == Refused;
        }
      }
    }
  }

  /******* Leases and conservation *******/

  ghost function Sum<K>(m: map<K, nat>): nat
    decreases |m|
  {
    if m == map[] then 0 else
      var k :| k in m;
      m[k] + Sum(m - {k})
  }

  lemma RemoveTwice<K>(m: map<K, nat>, j: K, k: K)
    ensures m - {j} - {k} == m - {k} - {j}
  {
  }

  lemma {:induction false} SumSplit<K>(m: map<K, nat>, k: K)
    requires k in m
    ensures Sum(m) == m[k] + Sum(m - {k})
    decreases |m|
  {
    var j :| j in m && Sum(m) == m[j] + Sum(m - {j});
    if j != k {
      SumSplit(m - {j}, k);
      SumSplit(m - {k}, j);
      RemoveTwice(m, j, k);
    }
  }

  lemma SumBump<K>(m: map<K, nat>, k: K)
    ensures Sum(Bump(m, k)) == Sum(m) + 1
  {
    SumSplit(Bump(m, k), k);
    assert Bump(m, k) - {k} == m - {k};
    if k in m { SumSplit(m, k); } else { assert m - {k} == m; }
  }

  /** How many steps of the run gave a lease back. */
  function Releases(p: Policy, session: int, run: seq<Step>): nat {
    if run == [] then 0 else
      var before := run[..|run| - 1];
      Releases(p, session, before)
      + (if ReleasesLease(Apply(p, Run(p, session, before), run[|run| - 1]).1) then 1 else 0)
  }

  ghost predicate Conserved(b: Budget, released: nat) {
    && b.toolCalls == Sum(b.chainActions)
    && b.toolCalls == Sum(b.operationAttempts)
    && b.toolCalls == Sum(b.intentCalls)
    && b.toolCalls == |b.active| + released
  }

  lemma AuthorizeConserves(p: Policy, b: Budget, released: nat, r: Request, prechecked: bool, consume: bool, id: LeaseId)
    requires Conserved(b, released) && Unseen(b, id)
    ensures Conserved(Authorize(p, b, r, prechecked, consume, id).0, released)
  {
    SumBump(b.chainActions, r.chain);
    SumBump(b.operationAttempts, r.operation);
    SumBump(b.intentCalls, r.intent);
  }

  lemma CompleteConserves(b: Budget, released: nat, session: int, id: LeaseId)
    requires Conserved(b, released)
    ensures var (after, o) := Complete(b, session, id); Conserved(after, if o.Released? then released + 1 else released)
  {
  }

  lemma VerifyConserves(b: Budget, released: nat, id: LeaseId, report: Report)
    requires Conserved(b, released)
    ensures var (after, o) := VerifyCompletion(b, id, report);
            Conserved(after, if o.Settled? then released + 1 else released)
  {
  }

  lemma StepConserves(p: Policy, b: Budget, released: nat, step: Step)
    requires Conserved(b, released) && (step.DoAuthorize? ==> Unseen(b, step.id))
    ensures var (after, o) := Apply(p, b, step); Conserved(after, if ReleasesLease(o) then released + 1 else released)
  {
    match step
    case DoAuthorize(r, prechecked, consume, id) => AuthorizeConserves(p, b, released, r, prechecked, consume, id);
    case DoComplete(session, id) => CompleteConserves(b, released, session, id);
    case DoVerify(id, report) => VerifyConserves(b, released, id, report);
  }

  /** Every admitted call is counted once per chain, operation and intent, and is either in flight or released. */
  lemma {:induction false} CallsAreConserved(p: Policy, session: int, run: seq<Step>)
    requires FreshIds(run)
    ensures Conserved(Run(p, session, run), Releases(p, session, run))
  {
    if run != [] {
      FreshPrefix(run);
      CallsAreConserved(p, session, run[..|run| - 1]);
      if run[|run| - 1].DoAuthorize? { OfferedIsUnseen(p, session, run); }
      StepConserves(p, Run(p, session, run[..|run| - 1]), Releases(p, session, run[..|run| - 1]), run[|run| - 1]);
    }
  }

  /** A lease given back is gone: nothing later in the run can hold it again. */
  lemma {:induction false} ReleasedStaysOut(p: Policy, session: int, run: seq<Step>, k: nat)
    requires FreshIds(run) && k < |run| && ReleasesLease(OutcomeAt(p, session, run, k))
    ensures LeaseOf(OutcomeAt(p, session, run, k)) !in Run(p, session, run).active
    decreases |run|
  {
    var last := |run| - 1;
    var before := run[..last];
    var id := LeaseOf(OutcomeAt(p, session, run, k));
    FreshPrefix(run);
    StepMoves(p, Run(p, session, run[..k]), run[k]);
    if k < last {
      assert before[..k] == run[..k] && before[k] == run[k];
      ReleasedStaysOut(p, session, before, k);
      StepMoves(p, Run(p, session, before), run[last]);
      ReleasedWasOffered(p, session, run, k);
    }
  }

  lemma ReleasedWasOffered(p: Policy, session: int, run: seq<Step>, k: nat)
    requires FreshIds(run) && k < |run| - 1 && ReleasesLease(OutcomeAt(p, session, run, k))
    ensures run[|run| - 1].DoAuthorize? ==> run[|run| - 1].id != LeaseOf(OutcomeAt(p, session, run, k))
  {
    var id := LeaseOf(OutcomeAt(p, session, run, k));
    StepMoves(p, Run(p, session, run[..k]), run[k]);
    SeenWasOffered(p, session, run[..k]);
    assert Offered(run[..k], id);
    var i :| 0 <= i < k && run[..k][i].DoAuthorize? && run[..k][i].id == id;
    assert run[..k][i] == run[i];
  }

  lemma NoLeaseReleasedTwice(p: Policy, session: int, run: seq<Step>, i: nat, j: nat)
    requires FreshIds(run) && i < j < |run|
    requires ReleasesLease(OutcomeAt(p, session, run, i)) && ReleasesLease(OutcomeAt(p, session, run, j))
    ensures LeaseOf(OutcomeAt(p, session, run, i)) != LeaseOf(OutcomeAt(p, session, run, j))
  {
    var before := run[..j];
    forall a, c | 0 <= a < c < |before| && before[a].DoAuthorize? && before[c].DoAuthorize?
      ensures before[a].id != before[c].id
    {
      assert run[a].id != run[c].id;
    }
    assert before[..i] == run[..i] && before[i] == run[i];
    ReleasedStaysOut(p, session, before, i);
  }

  /******* Limits *******/

  predicate WithinLimits(p: Policy, b: Budget) {
    && b.toolCalls <= p.maxToolCalls
    && b.autonomousActions <= p.maxAutonomous
    && |b.active| <= p.maxParallel
    && (forall c :: c in b.chainActions ==> b.chainActions[c] <= p.maxChainActions)
    && (forall o :: o in b.operationAttempts ==> b.operationAttempts[o] <= p.maxRetries + 1)
  }

  lemma AuthorizeKeepsLimits(p: Policy, b: Budget, r: Request, prechecked: bool, consume: bool, id: LeaseId)
    requires WithinLimits(p, b)
    ensures WithinLimits(p, Authorize(p, b, r, prechecked, consume, id).0)
  {
  }

  lemma CompleteKeepsLimits(p: Policy, b: Budget, session: int, id: LeaseId)
    requires WithinLimits(p, b)
    ensures WithinLimits(p, Complete(b, session, id).0)
  {
  }

  lemma VerifyKeepsLimits(p: Policy, b: Budget, id: LeaseId, report: Report)
    requires WithinLimits(p, b)
    ensures WithinLimits(p, VerifyCompletion(b, id, report).0)
  {
  }

  lemma StepKeepsLimits(p: Policy, b: Budget, step: Step)
    requires WithinLimits(p, b)
    ensures WithinLimits(p, Apply(p, b, step).0)
  {
    match step
    case DoAuthorize(r, prechecked, consume, id) => AuthorizeKeepsLimits(p, b, r, prechecked, consume, id);
    case DoComplete(session, id) => CompleteKeepsLimits(p, b, session, id);
    case DoVerify(id, report) => VerifyKeepsLimits(p, b, id, report);
  }

  /** The session, chain, retry, parallel and autonomous limits of the policy hold throughout. */
  lemma {:induction false} LimitsHold(p: Policy, session: int, run: seq<Step>)
    ensures WithinLimits(p, Run(p, session, run))
  {
    if run != [] {
      LimitsHold(p, session, run[..|run| - 1]);
      StepKeepsLimits(p, Run(p, session, run[..|run| - 1]), run[|run| - 1]);
    }
  }

  lemma StepKeepsIntent(p: Policy, b: Budget, step: Step, intent: int, bound: nat)
    requires Count(b.intentCalls, intent) <= bound
    requires step.DoAuthorize? && step.request.intent == intent ==> step.request.intentLimit <= bound
    ensures Count(Apply(p, b, step).0.intentCalls, intent) <= bound
  {
  }

  /** Calls under one intent never exceed the largest limit any request carried for it. */
  lemma {:induction false} IntentCallsBounded(p: Policy, session: int, run: seq<Step>, intent: int, bound: nat)
    requires forall i :: 0 <= i < |run| && run[i].DoAuthorize? && run[i].request.intent == intent ==>
               run[i].request.intentLimit <= bound
    ensures Count(Run(p, session, run).intentCalls, intent) <= bound
  {
    if run != [] {
      var before := run[..|run| - 1];
      assert forall i :: 0 <= i < |before| ==> before[i] == run[i];
      IntentCallsBounded(p, session, before, intent, bound);
      StepKeepsIntent(p, Run(p, session, before), run[|run| - 1], intent, bound);
    }
  }

  predicate ConsumesApproval(p: Policy, session: int, run: seq<Step>, i: nat)
    requires i < |run|
  {
    run[i].DoAuthorize? && run[i].consume && OutcomeAt(p, session, run, i).Granted?
  }

  lemma GrantConsumes(p: Policy, b: Budget, step: Step)
    requires step.DoAuthorize? && step.consume && Apply(p, b, step).1.Granted?
    ensures step.request.approval.Some? && step.request.approval.value in Apply(p, b, step).0.usedApprovals
  {
  }

  lemma UsedStaysUsed(p: Policy, session: int, run: seq<Step>, approval: int)
    requires run != [] && approval in Run(p, session, run[..|run| - 1]).usedApprovals
    ensures approval in Run(p, session, run).usedApprovals
  {
    StepMoves(p, Run(p, session, run[..|run| - 1]), run[|run| - 1]);
  }

  lemma {:induction false} ConsumedStaysUsed(p: Policy, session: int, run: seq<Step>, k: nat)
    requires k < |run| && ConsumesApproval(p, session, run, k)
    ensures run[k].request.approval.Some?
    ensures run[k].request.approval.value in Run(p, session, run).usedApprovals
    decreases |run|
  {
    var last := |run| - 1;
    if k < last {
      var before := run[..last];
      assert before[..k] == run[..k] && before[k] == run[k];
      ConsumedStaysUsed(p, session, before, k);
      UsedStaysUsed(p, session, run, run[k].request.approval.value);
    } else {
      assert run[..k] == run[..last];
      GrantConsumes(p, Run(p, session, run[..last]), run[last]);
    }
  }

  /** No two calls of a session run on the same approval. */
  lemma ApprovalUsedOnce(p: Policy, session: int, run: seq<Step>, i: nat, j: nat)
    requires i < j < |run| && ConsumesApproval(p, session, run, i) && ConsumesApproval(p, session, run, j)
    ensures run[i].request.approval.Some? && run[j].request.approval.Some?
    ensures run[i].request.approval != run[j].request.approval
  {
    var before := run[..j];
    assert before[..i] == run[..i] && before[i] == run[i];
    ConsumedStaysUsed(p, session, before, i);
  }

  /******* Data flows *******/

  /** Some rule between these tools lists a label of the source's outputs, and allows the flow this often. */
  predicate UseAllowed(rules: seq<FlowRule>, source: Execution, k: FlowKey, uses: nat) {
    exists i :: 0 <= i < |rules| && rules[i].source == source.tool && rules[i].target == k.1
      && rules[i].argument == k.2 && rules[i].labels * source.outputs.Keys != {} && uses <= rules[i].maxUses
  }

  ghost predicate FlowUsesOk(p: Semantics, verified: map<LeaseId, Execution>, uses: map<FlowKey, nat>) {
    forall k :: k in uses ==> k.0 in verified && UseAllowed(p.rules, verified[k.0], k, uses[k])
  }

  lemma {:induction false} MatchingRuleMatches(rules: seq<FlowRule>, source: Tool, target: Tool, argument: int, tag: int)
    requires MatchingRule(rules, source, target, argument, tag).Some?
    ensures var rule := MatchingRule(rules, source, target, argument, tag).value;
            exists i :: 0 <= i < |rules| && rules[i] == rule
              && rule.source == source && rule.target == target && rule.argument == argument && tag in rule.labels
  {
    if !(rules[0].source == source && rules[0].target == target && rules[0].argument == argument
         && tag in rules[0].labels) {
      MatchingRuleMatches(rules[1..], source, target, argument, tag);
      var i :| 0 <= i < |rules[1..]| && rules[1..][i] == MatchingRule(rules, source, target, argument, tag).value;
      assert rules[i + 1] == rules[1..][i];
    }
  }

  lemma FlowMayBeUsed(p: Semantics, b: Budget, r: Request, targets: set<int>, f: Flow)
    requires p.denyFlows && FlowOk(p, b, r, targets, f)
    ensures var k := (f.source, r.tool, f.argument);
            UseAllowed(p.rules, b.verified[f.source], k, Count(b.flowUses, k) + 1)
  {
    var source := b.verified[f.source];
    MatchingRuleMatches(p.rules, source.tool, r.tool, f.argument, f.tag);
    var rule := MatchingRule(p.rules, source.tool, r.tool, f.argument, f.tag).value;
    assert f.tag in rule.labels * source.outputs.Keys;
  }

  lemma ReserveKeepsFlowUses(p: Semantics, b: Budget, r: Request)
    requires p.denyFlows && FlowUsesOk(p, b.verified, b.flowUses) && r.context.Some?
    requires forall i :: 0 <= i < |r.context.value.flows| ==>
               FlowOk(p, b, r, r.context.value.targets, r.context.value.flows[i])
    ensures FlowUsesOk(p, b.verified, UseFlows(b.flowUses, FlowKeys(r)))
  {
    var flows := r.context.value.flows;
    var uses := UseFlows(b.flowUses, FlowKeys(r));
    forall k | k in uses ensures k.0 in b.verified && UseAllowed(p.rules, b.verified[k.0], k, uses[k]) {
      if k in FlowKeys(r) {
        var i :| 0 <= i < |flows| && k == (flows[i].source, r.tool, flows[i].argument);
        FlowMayBeUsed(p, b, r, r.context.value.targets, flows[i]);
      }
    }
  }

  lemma AuthorizeKeepsFlowUses(p: Policy, b: Budget, r: Request, prechecked: bool, consume: bool, id: LeaseId)
    requires p.semantics.Some? && p.semantics.value.denyFlows && FlowUsesOk(p.semantics.value, b.verified, b.flowUses)
    ensures var after := Authorize(p, b, r, prechecked, consume, id).0;
            FlowUsesOk(p.semantics.value, after.verified, after.flowUses)
  {
    if AuthorizeOk(p, b, r, prechecked, consume) { ReserveKeepsFlowUses(p.semantics.value, b, r); }
  }

  lemma VerifyKeepsFlowUses(p: Semantics, b: Budget, id: LeaseId, report: Report)
    requires FlowUsesOk(p, b.verified, b.flowUses) && (id in b.activeSemantic ==> id !in b.verified)
    ensures var after := VerifyCompletion(b, id, report).0; FlowUsesOk(p, after.verified, after.flowUses)
  {
  }

  lemma StepKeepsFlowUses(p: Policy, b: Budget, step: Step)
    requires p.semantics.Some? && p.semantics.value.denyFlows && SequencingOk(p.semantics.value, b)
    requires FlowUsesOk(p.semantics.value, b.verified, b.flowUses)
    ensures var after := Apply(p, b, step).0; FlowUsesOk(p.semantics.value, after.verified, after.flowUses)
  {
    match step
    case DoAuthorize(r, prechecked, consume, id) => AuthorizeKeepsFlowUses(p, b, r, prechecked, consume, id);
    case DoComplete(session, id) =>
    case DoVerify(id, report) => VerifyKeepsFlowUses(p.semantics.value, b, id, report);
  }

  /** Every value ever passed on came from a verified call, no more often than a rule that lists one of its labels allows. */
  lemma {:induction false} FlowUsesBounded(p: Policy, session: int, run: seq<Step>)
    requires p.semantics.Some? && p.semantics.value.denyFlows && FreshIds(run)
    ensures FlowUsesOk(p.semantics.value, Run(p, session, run).verified, Run(p, session, run).flowUses)
  {
    if run != [] {
      var before := run[..|run| - 1];
      FreshPrefix(run);
      FlowUsesBounded(p, session, before);
      ReachableSequencing(p, session, before);
      StepKeepsFlowUses(p, Run(p, session, before), run[|run| - 1]);
    }
  }

  /** The request passes a value labelled `tag` along the flow `k`. */
  predicate Passes(r: Request, k: FlowKey, tag: int) {
    && r.context.Some?
    && r.tool == k.1
    && exists i :: 0 <= i < |r.context.value.flows|
         && r.context.value.flows[i].source == k.0
         && r.context.value.flows[i].argument == k.2
         && r.context.value.flows[i].tag == tag
  }

  /** The step was granted and passed a value labelled `tag` along the flow `k`. */
  predicate LabelPassed(p: Policy, b: Budget, step: Step, k: FlowKey, tag: int) {
    step.DoAuthorize? && Apply(p, b, step).1.Granted? && Passes(step.request, k, tag)
  }

  /** How many granted calls of the run passed a value labelled `tag` along the flow `k`. */
  function LabelUses(p: Policy, session: int, run: seq<Step>, k: FlowKey, tag: int): nat {
    if run == [] then 0 else
      var before := run[..|run| - 1];
      LabelUses(p, session, before, k, tag)
      + (if LabelPassed(p, Run(p, session, before), run[|run| - 1], k, tag) then 1 else 0)
  }

  /** No use before the source is verified; then as many as the first rule for this label allows. */
  predicate LabelWithinRule(p: Semantics, b: Budget, k: FlowKey, tag: int, used: nat) {
    && used <= Count(b.flowUses, k)
    && (k.0 !in b.verified ==> used == 0)
    && (k.0 in b.verified ==>
          match MatchingRule(p.rules, b.verified[k.0].tool, k.1, k.2, tag)
          case None => p.denyFlows ==> used == 0
          case Some(rule) => used <= rule.maxUses)
  }

  lemma AuthorizeKeepsLabel(p: Policy, b: Budget, step: Step, k: FlowKey, tag: int, used: nat)
    requires p.semantics.Some? && LabelWithinRule(p.semantics.value, b, k, tag, used) && step.DoAuthorize?
    ensures LabelWithinRule(p.semantics.value, Apply(p, b, step).0, k, tag,
                            used + (if LabelPassed(p, b, step, k, tag) then 1 else 0))
  {
    if LabelPassed(p, b, step, k, tag) {
      var r := step.request;
      var flows := r.context.value.flows;
      var i :| 0 <= i < |flows| && flows[i].source == k.0 && flows[i].argument == k.2 && flows[i].tag == tag;
      assert FlowOk(p.semantics.value, b, r, r.context.value.targets, flows[i]);
      assert (flows[i].source, r.tool, flows[i].argument) in FlowKeys(r);
    }
  }

  lemma VerifyKeepsLabel(p: Semantics, b: Budget, id: LeaseId, report: Report, k: FlowKey, tag: int, used: nat)
    requires SequencingOk(p, b) && LabelWithinRule(p, b, k, tag, used)
    ensures LabelWithinRule(p, VerifyCompletion(b, id, report).0, k, tag, used)
  {
  }

  lemma StepKeepsLabel(p: Policy, b: Budget, step: Step, k: FlowKey, tag: int, used: nat)
    requires p.semantics.Some? && SequencingOk(p.semantics.value, b)
    requires LabelWithinRule(p.semantics.value, b, k, tag, used)
    ensures LabelWithinRule(p.semantics.value, Apply(p, b, step).0, k, tag,
                            used + (if LabelPassed(p, b, step, k, tag) then 1 else 0))
  {
    match step
    case DoAuthorize(_, _, _, _) => AuthorizeKeepsLabel(p, b, step, k, tag, used);
    case DoComplete(session, id) =>
    case DoVerify(id, report) => VerifyKeepsLabel(p.semantics.value, b, id, report, k, tag, used);
  }

  /**
   Over any run, whether or not unlisted flows are denied: a value labelled `tag` goes along a flow at most
   as often as the first rule that lists this label allows, never before its source has been verified, and
   not at all when no rule lists it and unlisted flows are denied.
   */
  lemma {:induction false} LabelUsesBounded(p: Policy, session: int, run: seq<Step>, k: FlowKey, tag: int)
    requires p.semantics.Some? && FreshIds(run)
    ensures LabelWithinRule(p.semantics.value, Run(p, session, run), k, tag, LabelUses(p, session, run, k, tag))
  {
    if run != [] {
      var before := run[..|run| - 1];
      FreshPrefix(run);
      LabelUsesBounded(p, session, before, k, tag);
      ReachableSequencing(p, session, before);
      StepKeepsLabel(p, Run(p, session, before), run[|run| - 1], k, tag, LabelUses(p, session, before, k, tag));
    }
  }
}
