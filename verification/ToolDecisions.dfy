/** Exactly which calls are authorised, in terms of what the session's run did before. */
module ToolDecisions {
  import opened Wrappers
  import opened ToolModel
  import opened ToolInvariants
  import opened ToolHistory

  /******* Condemned chains, spent approvals, verified sequences, flows *******/

  /** One of the first `n` steps closed a call of the chain whose report failed its postconditions. */
  ghost predicate Condemned(p: Policy, session: int, run: seq<Step>, n: nat, chain: Chain)
    requires n <= |run|
  {
    n > 0 && (CondemnedAt(p, session, run, n - 1, chain) || Condemned(p, session, run, n - 1, chain))
  }

  /** One of the first `n` steps was granted a call that used the approval up. */
  predicate Spent(p: Policy, session: int, run: seq<Step>, n: nat, approval: int)
    requires n <= |run|
  {
    n > 0 &&
    (|| (GrantedAt(p, session, run, n - 1) && run[n - 1].consume && run[n - 1].request.approval == Some(approval))
     || Spent(p, session, run, n - 1, approval))
  }

  /** Some call of the chain is verified by step `n`. */
  ghost predicate VerifiesOn(p: Policy, session: int, run: seq<Step>, n: nat, chain: Chain)
    requires n < |run|
  {
    run[n].DoVerify? && exists r :: VerifiedAt(p, session, run, n, run[n].closing, r, run[n].report) && r.chain == chain
  }

  /** The leases of the chain's verified calls, in the order of their verification. */
  ghost function VerifiedOn(p: Policy, session: int, run: seq<Step>, n: nat, chain: Chain): seq<LeaseId>
    requires n <= |run|
  {
    if n == 0 then []
    else VerifiedOn(p, session, run, n - 1, chain)
         + if VerifiesOn(p, session, run, n - 1, chain) then [run[n - 1].closing] else []
  }

  /** The request passes some value along the flow. */
  predicate PassesAlong(r: Request, k: FlowKey) {
    r.tool == k.1 && r.context.Some?
    && exists i :: 0 <= i < |r.context.value.flows|
         && r.context.value.flows[i].source == k.0 && r.context.value.flows[i].argument == k.2
  }

  /** How many of the first `n` steps were granted a call that passes a value along the flow. */
  function Uses(p: Policy, session: int, run: seq<Step>, n: nat, k: FlowKey): nat
    requires n <= |run|
  {
    if n == 0 then 0
    else Uses(p, session, run, n - 1, k)
         + if GrantedAt(p, session, run, n - 1) && PassesAlong(run[n - 1].request, k) then 1 else 0
  }

  lemma StepQuarantines(p: Policy, b: Budget, step: Step, chain: Chain)
    ensures var (after, o) := Apply(p, b, step);
            chain in after.quarantined <==>
              || chain in b.quarantined
              || (step.DoVerify? && !step.report.accepted && o.Settled?
                  && step.closing in b.activeSemantic && b.activeSemantic[step.closing].chain == chain)
  {
  }

  lemma StepSpends(p: Policy, b: Budget, step: Step, approval: int)
    ensures var (after, o) := Apply(p, b, step);
            approval in after.usedApprovals <==>
              || approval in b.usedApprovals
              || (step.DoAuthorize? && o.Granted? && step.consume && step.request.approval == Some(approval))
  {
  }

  lemma StepAppends(p: Policy, b: Budget, step: Step, chain: Chain)
    ensures var (after, o) := Apply(p, b, step);
            HistoryOf(after.history, chain) == HistoryOf(b.history, chain)
              + if step.DoVerify? && o == Settled(step.closing, true) && step.report.accepted && step.report.succeeded
                   && step.closing in b.activeSemantic && b.activeSemantic[step.closing].chain == chain
                then [step.closing] else []
  {
  }

  lemma StepUses(p: Policy, b: Budget, step: Step, k: FlowKey)
    requires p.semantics.Some?
    ensures var (after, o) := Apply(p, b, step);
            Count(after.flowUses, k) == Count(b.flowUses, k)
              + if step.DoAuthorize? && o.Granted? && PassesAlong(step.request, k) then 1 else 0
  {
    if step.DoAuthorize? { assert k in FlowKeys(step.request) <==> PassesAlong(step.request, k); }
  }

  lemma ClosingInFlight(p: Policy, session: int, run: seq<Step>, n: nat, chain: Chain)
    requires p.semantics.Some? && FreshIds(run) && n < |run| && run[n].DoVerify?
    ensures var b := Run(p, session, run[..n]);
            (run[n].closing in b.activeSemantic && b.activeSemantic[run[n].closing].chain == chain) <==>
            exists r :: InFlight(p, session, run, n, run[n].closing, r) && r.chain == chain
  {
    var b := Run(p, session, run[..n]);
    var id := run[n].closing;
    if id in b.activeSemantic { TrackedIffInFlight(p, session, run, n, id, b.activeSemantic[id]); }
    if r :| InFlight(p, session, run, n, id, r) && r.chain == chain { TrackedIffInFlight(p, session, run, n, id, r); }
  }

  /** A chain is quarantined exactly when a call of it was condemned. */
  lemma {:induction false} QuarantinedIff(p: Policy, session: int, run: seq<Step>, n: nat, chain: Chain)
    requires p.semantics.Some? && FreshIds(run) && n <= |run|
    ensures chain in Run(p, session, run[..n]).quarantined <==> Condemned(p, session, run, n, chain)
  {
    if n > 0 {
      QuarantinedIff(p, session, run, n - 1, chain);
      RunUnfolds(p, session, run, n - 1);
      StepQuarantines(p, Run(p, session, run[..n - 1]), run[n - 1], chain);
      if run[n - 1].DoVerify? { ClosingInFlight(p, session, run, n - 1, chain); }
    }
  }

  lemma {:induction false} SpentIff(p: Policy, session: int, run: seq<Step>, n: nat, approval: int)
    requires n <= |run|
    ensures approval in Run(p, session, run[..n]).usedApprovals <==> Spent(p, session, run, n, approval)
  {
    if n > 0 {
      SpentIff(p, session, run, n - 1, approval);
      RunUnfolds(p, session, run, n - 1);
      StepSpends(p, Run(p, session, run[..n - 1]), run[n - 1], approval);
    }
  }

  lemma VerifiesOnIff(p: Policy, session: int, run: seq<Step>, n: nat, chain: Chain)
    requires p.semantics.Some? && FreshIds(run) && n < |run| && run[n].DoVerify?
    ensures var b := Run(p, session, run[..n]);
            VerifiesOn(p, session, run, n, chain) <==>
              && OutcomeAt(p, session, run, n) == Settled(run[n].closing, true)
              && run[n].report.accepted && run[n].report.succeeded
              && run[n].closing in b.activeSemantic && b.activeSemantic[run[n].closing].chain == chain
  {
    ClosingInFlight(p, session, run, n, chain);
    if r :| InFlight(p, session, run, n, run[n].closing, r) && r.chain == chain {
      if OutcomeAt(p, session, run, n) == Settled(run[n].closing, true) && run[n].report.accepted && run[n].report.succeeded {
        assert VerifiedAt(p, session, run, n, run[n].closing, r, run[n].report);
      }
    }
  }

  /** The history of a chain lists its verified calls in order. */
  lemma {:induction false} HistoryIsVerified(p: Policy, session: int, run: seq<Step>, n: nat, chain: Chain)
    requires p.semantics.Some? && FreshIds(run) && n <= |run|
    ensures HistoryOf(Run(p, session, run[..n]).history, chain) == VerifiedOn(p, session, run, n, chain)
  {
    if n > 0 {
      HistoryIsVerified(p, session, run, n - 1, chain);
      RunUnfolds(p, session, run, n - 1);
      StepAppends(p, Run(p, session, run[..n - 1]), run[n - 1], chain);
      if run[n - 1].DoVerify? { VerifiesOnIff(p, session, run, n - 1, chain); }
    }
  }

  lemma UsesOneMore(p: Policy, session: int, run: seq<Step>, n: nat, k: FlowKey, uses: nat)
    requires p.semantics.Some? && n < |run| && Count(Run(p, session, run[..n]).flowUses, k) == uses
    ensures Count(Run(p, session, run[..n + 1]).flowUses, k)
            == uses + if GrantedAt(p, session, run, n) && PassesAlong(run[n].request, k) then 1 else 0
  {
    RunUnfolds(p, session, run, n);
    StepUses(p, Run(p, session, run[..n]), run[n], k);
  }

  lemma {:induction false} UsesAreCounted(p: Policy, session: int, run: seq<Step>, n: nat, k: FlowKey)
    requires p.semantics.Some? && n <= |run|
    ensures Count(Run(p, session, run[..n]).flowUses, k) == Uses(p, session, run, n, k)
  {
    if n > 0 {
      UsesAreCounted(p, session, run, n - 1, k);
      UsesOneMore(p, session, run, n - 1, k, Uses(p, session, run, n - 1, k));
    }
  }

  /******* Data flows *******/

  predicate Lists(rule: FlowRule, source: Tool, target: Tool, argument: int, tag: int) {
    rule.source == source && rule.target == target && rule.argument == argument && tag in rule.labels
  }

  /** Rule `i` is the first that lists this label between these tools. */
  predicate ListsFirst(rules: seq<FlowRule>, i: int, source: Tool, target: Tool, argument: int, tag: int) {
    0 <= i < |rules| && Lists(rules[i], source, target, argument, tag)
    && forall j :: 0 <= j < i ==> !Lists(rules[j], source, target, argument, tag)
  }

  predicate Unlisted(rules: seq<FlowRule>, source: Tool, target: Tool, argument: int, tag: int) {
    forall i :: 0 <= i < |rules| ==> !Lists(rules[i], source, target, argument, tag)
  }

  lemma LaterRule(rules: seq<FlowRule>, i: int, source: Tool, target: Tool, argument: int, tag: int)
    requires rules != [] && !Lists(rules[0], source, target, argument, tag)
    ensures ListsFirst(rules, i + 1, source, target, argument, tag) <==> ListsFirst(rules[1..], i, source, target, argument, tag)
  {
    var rest := rules[1..];
    forall j | 0 <= j < |rest| ensures rest[j] == rules[j + 1] {
    }
    if ListsFirst(rules, i + 1, source, target, argument, tag) {
      forall j | 0 <= j < i ensures !Lists(rest[j], source, target, argument, tag) {
        assert !Lists(rules[j + 1], source, target, argument, tag);
      }
    }
    if ListsFirst(rest, i, source, target, argument, tag) {
      forall j | 0 <= j < i + 1 ensures !Lists(rules[j], source, target, argument, tag) {
        if j > 0 { assert !Lists(rest[j - 1], source, target, argument, tag); }
      }
    }
  }

  lemma {:induction false} MatchingIsFirst(rules: seq<FlowRule>, source: Tool, target: Tool, argument: int, tag: int)
    ensures var m := MatchingRule(rules, source, target, argument, tag);
            && (m.None? <==> Unlisted(rules, source, target, argument, tag))
            && forall i :: ListsFirst(rules, i, source, target, argument, tag) ==> m == Some(rules[i])
    ensures !Unlisted(rules, source, target, argument, tag) ==> exists i :: ListsFirst(rules, i, source, target, argument, tag)
  {
    if rules != [] {
      if Lists(rules[0], source, target, argument, tag) {
        assert ListsFirst(rules, 0, source, target, argument, tag);
      } else {
        var rest := rules[1..];
        MatchingIsFirst(rest, source, target, argument, tag);
        forall i | ListsFirst(rules, i, source, target, argument, tag)
          ensures MatchingRule(rules, source, target, argument, tag) == Some(rules[i])
        {
          LaterRule(rules, i - 1, source, target, argument, tag);
        }
        if !Unlisted(rest, source, target, argument, tag) {
          var i :| ListsFirst(rest, i, source, target, argument, tag);
          LaterRule(rules, i, source, target, argument, tag);
        }
        assert Unlisted(rules, source, target, argument, tag) <==> Unlisted(rest, source, target, argument, tag) by {
          if Unlisted(rest, source, target, argument, tag) {
            forall i | 0 <= i < |rules| ensures !Lists(rules[i], source, target, argument, tag) {
              if i > 0 { assert rules[i] == rest[i - 1]; }
            }
          }
        }
      }
    }
  }

  /** The rules let the value pass from this verified call: unlisted and not denied, or within the first rule that lists it. */
  ghost predicate RulesLet(p: Semantics, r: Request, f: Flow, source: Execution, uses: nat) {
    || (!p.denyFlows && Unlisted(p.rules, source.tool, r.tool, f.argument, f.tag))
    || exists i :: ListsFirst(p.rules, i, source.tool, r.tool, f.argument, f.tag)
         && uses < p.rules[i].maxUses
         && (p.rules[i].sameIntent ==> source.intent == r.intent)
         && (p.rules[i].sameResource ==> r.context.Some? && source.resources * r.context.value.targets != {})
  }

  /**
   The value is what some earlier step verified as that output of a call on the same chain, and the rules let it
   pass once more.
   */
  ghost predicate Provenance(p: Policy, session: int, run: seq<Step>, n: nat, r: Request, f: Flow)
    requires n <= |run| && p.semantics.Some?
  {
    && f.intact
    && exists src, report :: Verified(p, session, run, n, f.source, src, report)
         && src.chain == r.chain
         && f.tag in report.outputs && report.outputs[f.tag] == f.digest
         && RulesLet(p.semantics.value, r, f, RecordOf(src, report),
                     Uses(p, session, run, n, (f.source, r.tool, f.argument)))
  }

  lemma RulesLetIff(p: Semantics, r: Request, f: Flow, source: Execution, uses: nat)
    requires r.context.Some?
    ensures RulesLet(p, r, f, source, uses) <==>
            match MatchingRule(p.rules, source.tool, r.tool, f.argument, f.tag)
            case None => !p.denyFlows
            case Some(rule) =>
              && uses < rule.maxUses
              && (rule.sameIntent ==> source.intent == r.intent)
              && (rule.sameResource ==> source.resources * r.context.value.targets != {})
  {
    MatchingIsFirst(p.rules, source.tool, r.tool, f.argument, f.tag);
  }

  lemma FlowOkIff(p: Policy, session: int, run: seq<Step>, n: nat, r: Request, f: Flow)
    requires p.semantics.Some? && FreshIds(run) && n <= |run| && r.context.Some?
    ensures FlowOk(p.semantics.value, Run(p, session, run[..n]), r, r.context.value.targets, f)
            <==> Provenance(p, session, run, n, r, f)
  {
    var b := Run(p, session, run[..n]);
    var s := p.semantics.value;
    var uses := Uses(p, session, run, n, (f.source, r.tool, f.argument));
    UsesAreCounted(p, session, run, n, (f.source, r.tool, f.argument));
    if f.source in b.verified {
      RecordedIffVerified(p, session, run, n, f.source, b.verified[f.source]);
      RulesLetIff(s, r, f, b.verified[f.source], uses);
    }
    if Provenance(p, session, run, n, r, f) {
      var src, report :| Verified(p, session, run, n, f.source, src, report)
        && src.chain == r.chain && f.tag in report.outputs && report.outputs[f.tag] == f.digest
        && RulesLet(s, r, f, RecordOf(src, report), uses);
      RecordedIffVerified(p, session, run, n, f.source, RecordOf(src, report));
    }
  }

  /******* The decision *******/

  /** The policy and the intent leave room for one more such call. */
  predicate RoomFor(p: Policy, session: int, run: seq<Step>, n: nat, r: Request)
    requires n <= |run|
  {
    && Grants(p, session, run, n, AnyCall) < p.maxToolCalls
    && Grants(p, session, run, n, OnChain(r.chain)) < p.maxChainActions
    && Grants(p, session, run, n, OfOperation(r.operation)) < p.maxRetries + 1
    && Grants(p, session, run, n, UnderIntent(r.intent)) < r.intentLimit
    && (r.autonomous ==> Grants(p, session, run, n, Unattended) < p.maxAutonomous)
    && Grants(p, session, run, n, AnyCall) - Releases(p, session, run[..n]) < p.maxParallel
  }

  /** The call may come next on its chain: the last verified call of it allows this tool to follow. */
  ghost predicate MayComeNext(p: Policy, session: int, run: seq<Step>, n: nat, r: Request)
    requires n <= |run| && p.semantics.Some?
  {
    var before := VerifiedOn(p, session, run, n, r.chain);
    || before == [] || !p.semantics.value.denyTransitions
    || VerifiedBefore(p, session, run, n, before[|before| - 1], r.tool)
  }

  /** The lease was verified as a call of a tool that `next` may follow. */
  ghost predicate VerifiedBefore(p: Policy, session: int, run: seq<Step>, n: nat, last: LeaseId, next: Tool)
    requires n <= |run| && p.semantics.Some?
  {
    exists src, report :: Verified(p, session, run, n, last, src, report) && (src.tool, next) in p.semantics.value.transitions
  }

  /** Every flow of the request has its provenance. */
  ghost predicate FlowsMet(p: Policy, session: int, run: seq<Step>, n: nat, r: Request)
    requires n <= |run| && p.semantics.Some? && r.context.Some?
  {
    forall i :: 0 <= i < |r.context.value.flows| ==> Provenance(p, session, run, n, r, r.context.value.flows[i])
  }

  /** A call of the chain is in flight. */
  ghost predicate Busy(p: Policy, session: int, run: seq<Step>, n: nat, chain: Chain)
    requires n <= |run|
  {
    exists id, other :: InFlight(p, session, run, n, id, other) && other.chain == chain
  }

  /** What a semantic policy asks: nothing condemned or in flight on the chain, the sequence, and every flow. */
  ghost predicate SemanticsMet(p: Policy, session: int, run: seq<Step>, n: nat, r: Request)
    requires n <= |run| && p.semantics.Some?
  {
    && !Condemned(p, session, run, n, r.chain)
    && !Busy(p, session, run, n, r.chain)
    && MayComeNext(p, session, run, n, r)
    && r.context.Some? && r.context.value.otherwiseOk && FlowsMet(p, session, run, n, r)
  }

  lemma BusyIff(p: Policy, session: int, run: seq<Step>, n: nat, chain: Chain)
    requires p.semantics.Some? && FreshIds(run) && n <= |run|
    ensures ChainBusy(Run(p, session, run[..n]), chain) <==> Busy(p, session, run, n, chain)
  {
    var b := Run(p, session, run[..n]);
    if ChainBusy(b, chain) {
      var id :| id in b.activeSemantic && b.activeSemantic[id].chain == chain;
      TrackedIffInFlight(p, session, run, n, id, b.activeSemantic[id]);
    }
    if id, other :| InFlight(p, session, run, n, id, other) && other.chain == chain {
      TrackedIffInFlight(p, session, run, n, id, other);
    }
  }

  lemma NextIff(p: Policy, session: int, run: seq<Step>, n: nat, r: Request)
    requires p.semantics.Some? && FreshIds(run) && n <= |run|
    ensures SequenceOk(p.semantics.value, Run(p, session, run[..n]), r) <==> MayComeNext(p, session, run, n, r)
  {
    var b := Run(p, session, run[..n]);
    var before := VerifiedOn(p, session, run, n, r.chain);
    HistoryIsVerified(p, session, run, n, r.chain);
    if before != [] {
      var last := before[|before| - 1];
      if last in b.verified { RecordedIffVerified(p, session, run, n, last, b.verified[last]); }
      if src, report :| Verified(p, session, run, n, last, src, report) && (src.tool, r.tool) in p.semantics.value.transitions {
        RecordedIffVerified(p, session, run, n, last, RecordOf(src, report));
      }
    }
  }

  lemma FlowsIff(p: Policy, session: int, run: seq<Step>, n: nat, r: Request)
    requires p.semantics.Some? && FreshIds(run) && n <= |run| && r.context.Some?
    ensures FlowsMet(p, session, run, n, r) <==>
            forall i :: 0 <= i < |r.context.value.flows| ==>
              FlowOk(p.semantics.value, Run(p, session, run[..n]), r, r.context.value.targets, r.context.value.flows[i])
  {
    forall i | 0 <= i < |r.context.value.flows|
      ensures FlowOk(p.semantics.value, Run(p, session, run[..n]), r, r.context.value.targets, r.context.value.flows[i])
              <==> Provenance(p, session, run, n, r, r.context.value.flows[i])
    {
      FlowOkIff(p, session, run, n, r, r.context.value.flows[i]);
    }
  }

  lemma SemanticIff(p: Policy, session: int, run: seq<Step>, n: nat, r: Request)
    requires p.semantics.Some? && FreshIds(run) && n <= |run|
    ensures SemanticOk(p, Run(p, session, run[..n]), r) <==> SemanticsMet(p, session, run, n, r)
  {
    QuarantinedIff(p, session, run, n, r.chain);
    BusyIff(p, session, run, n, r.chain);
    NextIff(p, session, run, n, r);
    if r.context.Some? { FlowsIff(p, session, run, n, r); }
  }

  lemma StepKeepsSession(p: Policy, b: Budget, step: Step)
    ensures Apply(p, b, step).0.session == b.session
  {
  }

  lemma {:induction false} SessionKept(p: Policy, session: int, run: seq<Step>)
    ensures Run(p, session, run).session == session
  {
    if run != [] {
      SessionKept(p, session, run[..|run| - 1]);
      StepKeepsSession(p, Run(p, session, run[..|run| - 1]), run[|run| - 1]);
    }
  }

  lemma RoomIff(p: Policy, session: int, run: seq<Step>, n: nat, r: Request, consume: bool)
    requires FreshIds(run) && n <= |run|
    ensures BudgetOk(p, Run(p, session, run[..n]), r, consume) <==>
            && r.session == session && RoomFor(p, session, run, n, r)
            && (consume && r.approval.Some? ==> !Spent(p, session, run, n, r.approval.value))
  {
    var b := Run(p, session, run[..n]);
    SessionKept(p, session, run[..n]);
    FreshUpTo(run, n);
    CallsAreConserved(p, session, run[..n]);
    CountersCountGrants(p, session, run, n, AnyCall);
    CountersCountGrants(p, session, run, n, OnChain(r.chain));
    CountersCountGrants(p, session, run, n, OfOperation(r.operation));
    CountersCountGrants(p, session, run, n, UnderIntent(r.intent));
    CountersCountGrants(p, session, run, n, Unattended);
    if r.approval.Some? { SpentIff(p, session, run, n, r.approval.value); }
  }

  /**
   A call is authorised exactly when it is the session's own, passed the checks that read no budget, has an
   approval not used before if it must use one up, leaves every limit room, and, under a semantic policy, meets
   what that asks: among it, that every value it passes on is the verified output it claims to be.
   */
  lemma AuthorizedIff(p: Policy, session: int, run: seq<Step>, n: nat)
    requires FreshIds(run) && n < |run| && run[n].DoAuthorize?
    ensures var r := run[n].request;
            GrantedAt(p, session, run, n) <==>
              && run[n].prechecked && r.session == session
              && (run[n].consume ==> r.approval.Some? && !Spent(p, session, run, n, r.approval.value))
              && RoomFor(p, session, run, n, r)
              && (p.semantics.Some? ==> SemanticsMet(p, session, run, n, r))
  {
    RoomIff(p, session, run, n, run[n].request, run[n].consume);
    if p.semantics.Some? { SemanticIff(p, session, run, n, run[n].request); }
  }

  /******* Giving leases back *******/

  /** One of the first `n` steps was granted this lease, and none since gives it back. */
  ghost predicate Held(p: Policy, session: int, run: seq<Step>, n: nat, id: LeaseId)
    requires n <= |run|
  {
    n > 0 &&
    (|| (GrantedAt(p, session, run, n - 1) && run[n - 1].id == id)
     || (Held(p, session, run, n - 1, id)
         && !(ReleasesLease(OutcomeAt(p, session, run, n - 1)) && LeaseOf(OutcomeAt(p, session, run, n - 1)) == id)))
  }

  lemma StepHolds(p: Policy, b: Budget, step: Step, id: LeaseId)
    requires step.DoAuthorize? ==> Unseen(b, step.id)
    ensures var (after, o) := Apply(p, b, step);
            id in after.active <==>
              || (step.DoAuthorize? && o.Granted? && step.id == id)
              || (id in b.active && !(ReleasesLease(o) && LeaseOf(o) == id))
  {
  }

  lemma {:induction false} ActiveIffHeld(p: Policy, session: int, run: seq<Step>, n: nat, id: LeaseId)
    requires FreshIds(run) && n <= |run|
    ensures id in Run(p, session, run[..n]).active <==> Held(p, session, run, n, id)
  {
    if n > 0 {
      ActiveIffHeld(p, session, run, n - 1, id);
      RunUnfolds(p, session, run, n - 1);
      if run[n - 1].DoAuthorize? { UnseenAt(p, session, run, n - 1); }
      StepHolds(p, Run(p, session, run[..n - 1]), run[n - 1], id);
    }
  }

  lemma StepTracksNothing(p: Policy, b: Budget, step: Step)
    requires p.semantics.None? && b.activeSemantic == map[]
    ensures Apply(p, b, step).0.activeSemantic == map[]
  {
  }

  lemma {:induction false} NothingTracked(p: Policy, session: int, run: seq<Step>)
    requires p.semantics.None?
    ensures Run(p, session, run).activeSemantic == map[]
  {
    if run != [] {
      NothingTracked(p, session, run[..|run| - 1]);
      StepTracksNothing(p, Run(p, session, run[..|run| - 1]), run[|run| - 1]);
    }
  }

  /**
   A plain completion releases a lease exactly when it is the session's, the lease is held and no semantic policy
   is in force; a verification settles one exactly when it is held and a semantic policy is in force, with the
   report's own verdict.
   */
  lemma GivenBackIff(p: Policy, session: int, run: seq<Step>, n: nat, id: LeaseId)
    requires FreshIds(run) && n < |run|
    ensures run[n].DoComplete? && run[n].lease == id ==>
              OutcomeAt(p, session, run, n) ==
                if run[n].session == session && p.semantics.None? && Held(p, session, run, n, id) then Released(id) else Refused
    ensures run[n].DoVerify? && run[n].closing == id ==>
              OutcomeAt(p, session, run, n) ==
                if p.semantics.Some? && Held(p, session, run, n, id) then Settled(id, run[n].report.accepted) else Refused
  {
    ActiveIffHeld(p, session, run, n, id);
    SessionKept(p, session, run[..n]);
    if p.semantics.Some? { SequencingAt(p, session, run, n); } else { NothingTracked(p, session, run[..n]); }
  }
}
