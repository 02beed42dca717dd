/** Every table of a session's budget in terms of what the run did: what was granted, released, verified, condemned. */
module ToolHistory {
  import opened Wrappers
  import opened ToolModel
  import opened ToolInvariants

  /******* Counting granted calls *******/

  /** The counts a budget keeps. */
  datatype Kind = AnyCall | OnChain(chain: Chain) | OfOperation(operation: int) | UnderIntent(intent: int) | Unattended

  predicate Counts(k: Kind, r: Request) {
    match k
    case AnyCall => true
    case OnChain(c) => r.chain == c
    case OfOperation(o) => r.operation == o
    case UnderIntent(i) => r.intent == i
    case Unattended => r.autonomous
  }

  /** Step `i` of the run was granted its call. */
  predicate GrantedAt(p: Policy, session: int, run: seq<Step>, i: nat)
    requires i < |run|
  {
    run[i].DoAuthorize? && OutcomeAt(p, session, run, i).Granted?
  }

  /** How many of the first `n` steps were granted a call of this kind. */
  function Grants(p: Policy, session: int, run: seq<Step>, n: nat, k: Kind): nat
    requires n <= |run|
  {
    if n == 0 then 0
    else Grants(p, session, run, n - 1, k)
         + if GrantedAt(p, session, run, n - 1) && Counts(k, run[n - 1].request) then 1 else 0
  }

  function Kept(b: Budget, k: Kind): nat {
    match k
    case AnyCall => b.toolCalls
    case OnChain(c) => Count(b.chainActions, c)
    case OfOperation(o) => Count(b.operationAttempts, o)
    case UnderIntent(i) => Count(b.intentCalls, i)
    case Unattended => b.autonomousActions
  }

  lemma RunUnfolds(p: Policy, session: int, run: seq<Step>, n: nat)
    requires n < |run|
    ensures Run(p, session, run[..n + 1]) == Apply(p, Run(p, session, run[..n]), run[n]).0
  {
    assert run[..n + 1][..n] == run[..n];
  }

  lemma StepCounts(p: Policy, b: Budget, step: Step, k: Kind)
    ensures var (after, o) := Apply(p, b, step);
            Kept(after, k) == Kept(b, k) + if step.DoAuthorize? && o.Granted? && Counts(k, step.request) then 1 else 0
  {
  }

  /** Every counter of the budget is the number of calls granted so far that it is about. */
  lemma {:induction false} CountersCountGrants(p: Policy, session: int, run: seq<Step>, n: nat, k: Kind)
    requires n <= |run|
    ensures Kept(Run(p, session, run[..n]), k) == Grants(p, session, run, n, k)
  {
    if n > 0 {
      CountersCountGrants(p, session, run, n - 1, k);
      RunUnfolds(p, session, run, n - 1);
      StepCounts(p, Run(p, session, run[..n - 1]), run[n - 1], k);
    }
  }

  /******* Calls in flight *******/

  /** One of the first `n` steps was granted `r` under this lease, and none of them since gives the lease back. */
  ghost predicate InFlight(p: Policy, session: int, run: seq<Step>, n: nat, id: LeaseId, r: Request)
    requires n <= |run|
  {
    n > 0 &&
    (|| (GrantedAt(p, session, run, n - 1) && run[n - 1].id == id && run[n - 1].request == r)
     || (InFlight(p, session, run, n - 1, id, r)
         && !(ReleasesLease(OutcomeAt(p, session, run, n - 1)) && LeaseOf(OutcomeAt(p, session, run, n - 1)) == id)))
  }

  /** The call was verified: a report that met its postconditions said that it succeeded. */
  ghost predicate VerifiedAt(p: Policy, session: int, run: seq<Step>, n: nat, id: LeaseId, r: Request, report: Report)
    requires n < |run|
  {
    && run[n] == DoVerify(id, report) && OutcomeAt(p, session, run, n) == Settled(id, true)
    && report.accepted && report.succeeded
    && InFlight(p, session, run, n, id, r)
  }

  /** Its report failed the postconditions. */
  ghost predicate CondemnedAt(p: Policy, session: int, run: seq<Step>, n: nat, chain: Chain)
    requires n < |run|
  {
    && run[n].DoVerify? && !run[n].report.accepted && OutcomeAt(p, session, run, n).Settled?
    && exists r :: InFlight(p, session, run, n, run[n].closing, r) && r.chain == chain
  }

  predicate Tracked(b: Budget, id: LeaseId, r: Request) {
    id in b.activeSemantic && b.activeSemantic[id] == r
  }

  lemma AuthorizeTracks(p: Policy, b: Budget, step: Step, id: LeaseId, r: Request)
    requires p.semantics.Some? && step.DoAuthorize? && Unseen(b, step.id)
    ensures var (after, o) := Apply(p, b, step);
            && !ReleasesLease(o)
            && (Tracked(after, id, r) <==> Tracked(b, id, r) || (o.Granted? && step.id == id && step.request == r))
  {
  }

  /** Under a semantic policy every lease in flight is tracked, so a plain completion releases none. */
  lemma CompletingIsRefused(p: Policy, b: Budget, session: int, lease: LeaseId)
    requires p.semantics.Some? && SequencingOk(p.semantics.value, b)
    ensures Complete(b, session, lease) == (b, Refused)
  {
  }

  lemma VerifyingUntracks(b: Budget, lease: LeaseId, report: Report, id: LeaseId, r: Request)
    ensures var (after, o) := VerifyCompletion(b, lease, report);
            Tracked(after, id, r) <==> Tracked(b, id, r) && !(o.Settled? && o.closed == id)
  {
  }

  lemma StepTracks(p: Policy, b: Budget, step: Step, id: LeaseId, r: Request)
    requires p.semantics.Some? && SequencingOk(p.semantics.value, b) && (step.DoAuthorize? ==> Unseen(b, step.id))
    ensures var (after, o) := Apply(p, b, step);
            Tracked(after, id, r) <==>
              || (step.DoAuthorize? && o.Granted? && step.id == id && step.request == r)
              || (Tracked(b, id, r) && !(ReleasesLease(o) && LeaseOf(o) == id))
  {
    match step
    case DoAuthorize(_, _, _, _) => AuthorizeTracks(p, b, step, id, r);
    case DoComplete(session, lease) => CompletingIsRefused(p, b, session, lease);
    case DoVerify(lease, report) => VerifyingUntracks(b, lease, report, id, r);
  }

  lemma UnseenAt(p: Policy, session: int, run: seq<Step>, n: nat)
    requires n < |run| && FreshIds(run) && run[n].DoAuthorize?
    ensures Unseen(Run(p, session, run[..n]), run[n].id)
  {
    var longer := run[..n + 1];
    assert longer[..|longer| - 1] == run[..n] && longer[n] == run[n];
    FreshUpTo(run, n + 1);
    OfferedIsUnseen(p, session, longer);
  }

  lemma FreshUpTo(run: seq<Step>, n: nat)
    requires n <= |run| && FreshIds(run)
    ensures FreshIds(run[..n])
  {
    var before := run[..n];
    forall i, j | 0 <= i < j < n && before[i].DoAuthorize? && before[j].DoAuthorize? ensures before[i].id != before[j].id {
      assert run[i].id != run[j].id;
    }
  }

  lemma SequencingAt(p: Policy, session: int, run: seq<Step>, n: nat)
    requires p.semantics.Some? && n <= |run| && FreshIds(run)
    ensures SequencingOk(p.semantics.value, Run(p, session, run[..n]))
  {
    FreshUpTo(run, n);
    ReachableSequencing(p, session, run[..n]);
  }

  ghost predicate TrackedAt(p: Policy, session: int, run: seq<Step>, n: nat, id: LeaseId, r: Request)
    requires n <= |run|
  {
    Tracked(Run(p, session, run[..n]), id, r)
  }

  lemma TrackedOneMore(p: Policy, session: int, run: seq<Step>, n: nat, id: LeaseId, r: Request)
    requires p.semantics.Some? && FreshIds(run) && n < |run|
    ensures TrackedAt(p, session, run, n + 1, id, r) <==>
            || (GrantedAt(p, session, run, n) && run[n].id == id && run[n].request == r)
            || (TrackedAt(p, session, run, n, id, r)
                && !(ReleasesLease(OutcomeAt(p, session, run, n)) && LeaseOf(OutcomeAt(p, session, run, n)) == id))
  {
    SequencingAt(p, session, run, n);
    if run[n].DoAuthorize? { UnseenAt(p, session, run, n); }
    RunUnfolds(p, session, run, n);
    StepTracks(p, Run(p, session, run[..n]), run[n], id, r);
  }

  /** The calls tracked by a semantic policy are those granted and not yet given back. */
  lemma {:induction false} TrackedIffInFlight(p: Policy, session: int, run: seq<Step>, n: nat, id: LeaseId, r: Request)
    requires p.semantics.Some? && FreshIds(run) && n <= |run|
    ensures TrackedAt(p, session, run, n, id, r) <==> InFlight(p, session, run, n, id, r)
  {
    if n > 0 {
      TrackedIffInFlight(p, session, run, n - 1, id, r);
      TrackedOneMore(p, session, run, n - 1, id, r);
    }
  }

  /******* Verified calls *******/

  /** One of the first `n` steps verified the call `r` of this lease with this report. */
  ghost predicate Verified(p: Policy, session: int, run: seq<Step>, n: nat, id: LeaseId, r: Request, report: Report)
    requires n <= |run|
  {
    n > 0 && (VerifiedAt(p, session, run, n - 1, id, r, report) || Verified(p, session, run, n - 1, id, r, report))
  }

  /** Verified by some step with some report, of a call whose record this is. */
  ghost predicate VerifiedAs(p: Policy, session: int, run: seq<Step>, n: nat, id: LeaseId, x: Execution)
    requires n <= |run|
  {
    exists r, report :: Verified(p, session, run, n, id, r, report) && x == RecordOf(r, report)
  }

  function RecordOf(r: Request, report: Report): Execution {
    Execution(r.tool, r.chain, r.intent, report.resources, report.outputs)
  }

  predicate Recorded(b: Budget, id: LeaseId, x: Execution) {
    id in b.verified && b.verified[id] == x
  }

  lemma StepRecords(p: Policy, b: Budget, step: Step, id: LeaseId, x: Execution)
    requires p.semantics.Some? && SequencingOk(p.semantics.value, b)
    ensures var (after, o) := Apply(p, b, step);
            Recorded(after, id, x) <==>
              || Recorded(b, id, x)
              || (step.DoVerify? && step.closing == id && o == Settled(id, true) && step.report.accepted
                  && step.report.succeeded && id in b.activeSemantic && x == RecordOf(b.activeSemantic[id], step.report))
  {
  }

  lemma VerifiedOneMore(p: Policy, session: int, run: seq<Step>, n: nat, id: LeaseId, x: Execution)
    requires n < |run|
    ensures VerifiedAs(p, session, run, n + 1, id, x) <==>
            || VerifiedAs(p, session, run, n, id, x)
            || exists r, report :: VerifiedAt(p, session, run, n, id, r, report) && x == RecordOf(r, report)
  {
    if VerifiedAs(p, session, run, n + 1, id, x) {
      var r, report :| Verified(p, session, run, n + 1, id, r, report) && x == RecordOf(r, report);
    }
    if VerifiedAs(p, session, run, n, id, x) {
      var r, report :| Verified(p, session, run, n, id, r, report) && x == RecordOf(r, report);
      assert Verified(p, session, run, n + 1, id, r, report);
    }
    if r, report :| VerifiedAt(p, session, run, n, id, r, report) && x == RecordOf(r, report) {
      assert Verified(p, session, run, n + 1, id, r, report);
    }
  }

  ghost predicate RecordedAt(p: Policy, session: int, run: seq<Step>, n: nat, id: LeaseId, x: Execution)
    requires n <= |run|
  {
    Recorded(Run(p, session, run[..n]), id, x)
  }

  lemma RecordedOneMore(p: Policy, session: int, run: seq<Step>, n: nat, id: LeaseId, x: Execution)
    requires p.semantics.Some? && FreshIds(run) && n < |run|
    ensures RecordedAt(p, session, run, n + 1, id, x) <==>
            || RecordedAt(p, session, run, n, id, x)
            || exists r, report :: VerifiedAt(p, session, run, n, id, r, report) && x == RecordOf(r, report)
  {
    var b := Run(p, session, run[..n]);
    SequencingAt(p, session, run, n);
    RunUnfolds(p, session, run, n);
    StepRecords(p, b, run[n], id, x);
    if run[n].DoVerify? && run[n].closing == id {
      if id in b.activeSemantic {
        TrackedIffInFlight(p, session, run, n, id, b.activeSemantic[id]);
        if OutcomeAt(p, session, run, n) == Settled(id, true) && run[n].report.accepted && run[n].report.succeeded
           && x == RecordOf(b.activeSemantic[id], run[n].report) {
          assert VerifiedAt(p, session, run, n, id, b.activeSemantic[id], run[n].report);
        }
      }
      if r, report :| VerifiedAt(p, session, run, n, id, r, report) && x == RecordOf(r, report) {
        TrackedIffInFlight(p, session, run, n, id, r);
      }
    }
  }

  /** The budget's verified calls are those some step verified, with tool, chain, intent, resources and outputs. */
  lemma {:induction false} RecordedIffVerified(p: Policy, session: int, run: seq<Step>, n: nat, id: LeaseId, x: Execution)
    requires p.semantics.Some? && FreshIds(run) && n <= |run|
    ensures RecordedAt(p, session, run, n, id, x) <==> VerifiedAs(p, session, run, n, id, x)
  {
    if n > 0 {
      RecordedIffVerified(p, session, run, n - 1, id, x);
      RecordedOneMore(p, session, run, n - 1, id, x);
      VerifiedOneMore(p, session, run, n - 1, id, x);
    }
  }
}
