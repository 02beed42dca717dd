/** The tool authoriser and the mutable session budget it works on, proved against ToolModel. */
module ToolAuthorization {
  import opened Wrappers
  import opened ToolModel

  class ToolExecutionBudget {
    const session: int
    var toolCalls: nat
    var autonomousActions: nat
    var intentCalls: map<int, nat>
    var operationAttempts: map<int, nat>
    var chainActions: map<Chain, nat>
    var active: set<LeaseId>
    var usedApprovals: set<int>
    var activeSemantic: map<LeaseId, Request>
    var verified: map<LeaseId, Execution>
    var history: map<Chain, seq<LeaseId>>
    var quarantined: set<Chain>
    var flowUses: map<FlowKey, nat>

    function View(): Budget
      reads this
    {
      Budget(session, toolCalls, autonomousActions, intentCalls, operationAttempts, chainActions, active,
             usedApprovals, activeSemantic, verified, history, quarantined, flowUses)
    }

    constructor (session: int)
      ensures View() == NewBudget(session)
    {
      this.session := session;
      toolCalls, autonomousActions := 0, 0;
      intentCalls, operationAttempts, chainActions := map[], map[], map[];
      active, usedApprovals, activeSemantic := {}, {}, map[];
      verified, history, quarantined, flowUses := map[], map[], {}, map[];
    }
  }

  class ToolAuthorizer {
    const policy: Policy

    constructor (policy: Policy)
      ensures this.policy == policy
    {
      this.policy := policy;
    }

    method SequenceAllowed(b: ToolExecutionBudget, r: Request) returns (allowed: bool)
      requires policy.semantics.Some?
      ensures allowed <==> SequenceOk(policy.semantics.value, b.View(), r)
    {
      if r.chain !in b.history || b.history[r.chain] == [] {
        return true;
      }
      var previous := b.history[r.chain][|b.history[r.chain]| - 1];
      if !policy.semantics.value.denyTransitions {
        return true;
      }
      return previous in b.verified && (b.verified[previous].tool, r.tool) in policy.semantics.value.transitions;
    }

    method DataFlowsAllowed(b: ToolExecutionBudget, r: Request) returns (allowed: bool)
      requires policy.semantics.Some? && r.context.Some?
      ensures allowed <==>
              forall i :: 0 <= i < |r.context.value.flows| ==>
                FlowOk(policy.semantics.value, b.View(), r, r.context.value.targets, r.context.value.flows[i])
    {
      var p := policy.semantics.value;
      var flows := r.context.value.flows;
      allowed := true;
      var i := 0;
      while i < |flows|
        invariant 0 <= i <= |flows|
        invariant allowed <==> forall k :: 0 <= k < i ==> FlowOk(p, b.View(), r, r.context.value.targets, flows[k])
      {
        var f := flows[i];
        i := i + 1;
        if !f.intact || f.source !in b.verified {
          allowed := false;
          continue;
        }
        var source := b.verified[f.source];
        if source.chain != r.chain || f.tag !in source.outputs || source.outputs[f.tag] != f.digest {
          allowed := false;
          continue;
        }
        var rule := MatchingRule(p.rules, source.tool, r.tool, f.argument, f.tag);
        if rule.None? {
          if p.denyFlows {
            allowed := false;
          }
          continue;
        }
        if Count(b.flowUses, (f.source, r.tool, f.argument)) >= rule.value.maxUses {
          allowed := false;
        }
        if rule.value.sameIntent && source.intent != r.intent {
          allowed := false;
        }
        if rule.value.sameResource && source.resources * r.context.value.targets == {} {
          allowed := false;
        }
      }
    }

    method SemanticsAllow(b: ToolExecutionBudget, r: Request) returns (allowed: bool)
      ensures allowed <==> SemanticOk(policy, b.View(), r)
    {
      if policy.semantics.None? {
        return true;
      }
      if r.chain in b.quarantined || r.context.None? {
        return false;
      }
      allowed := r.context.value.otherwiseOk;
      if exists i :: i in b.activeSemantic && b.activeSemantic[i].chain == r.chain {
        allowed := false;
      }
      var sequence := SequenceAllowed(b, r);
      var flows := DataFlowsAllowed(b, r);
      allowed := allowed && sequence && flows;
    }

    method BudgetAllows(b: ToolExecutionBudget, r: Request, consume: bool) returns (allowed: bool)
      ensures allowed <==> BudgetOk(policy, b.View(), r, consume)
    {
      if r.session != b.session {
        return false;
      }
      allowed := !(consume && r.approval.Some? && r.approval.value in b.usedApprovals)
        && b.toolCalls < policy.maxToolCalls
        && Count(b.chainActions, r.chain) < policy.maxChainActions
        && Count(b.operationAttempts, r.operation) <= policy.maxRetries
        && |b.active| < policy.maxParallel
        && (!r.autonomous || b.autonomousActions < policy.maxAutonomous)
        && Count(b.intentCalls, r.intent) < r.intentLimit;
    }

    /** Count one use of each flow; the arguments of a context are distinct, so no key is counted twice. */
    static method RecordFlows(uses: map<FlowKey, nat>, r: Request) returns (recorded: map<FlowKey, nat>)
      requires r.Valid() && r.context.Some?
      ensures recorded == UseFlows(uses, FlowKeys(r))
    {
      var flows := r.context.value.flows;
      recorded := uses;
      ghost var done: set<FlowKey> := {};
      var i := 0;
      while i < |flows|
        invariant 0 <= i <= |flows|
        invariant done == set k | 0 <= k < i :: (flows[k].source, r.tool, flows[k].argument)
        invariant recorded == UseFlows(uses, done)
      {
        var key := (flows[i].source, r.tool, flows[i].argument);
        assert key !in done;
        RecordOne(uses, done, key);
        recorded := Bump(recorded, key);
        done := done + {key};
        i := i + 1;
      }
    }

    static lemma RecordOne(uses: map<FlowKey, nat>, done: set<FlowKey>, key: FlowKey)
      requires key !in done
      ensures Bump(UseFlows(uses, done), key) == UseFlows(uses, done + {key})
    {
    }

    /** Count the call; whether it is also tracked as in flight depends on the semantic policy. */
    static method Reserve(b: ToolExecutionBudget, r: Request, consume: bool, id: LeaseId)
      modifies b`toolCalls, b`chainActions, b`operationAttempts, b`intentCalls, b`autonomousActions,
               b`active, b`usedApprovals
      ensures b.toolCalls == old(b.toolCalls) + 1
      ensures b.chainActions == Bump(old(b.chainActions), r.chain)
      ensures b.operationAttempts == Bump(old(b.operationAttempts), r.operation)
      ensures b.intentCalls == Bump(old(b.intentCalls), r.intent)
      ensures b.autonomousActions == if r.autonomous then old(b.autonomousActions) + 1 else old(b.autonomousActions)
      ensures b.active == old(b.active) + {id}
      ensures b.usedApprovals == if consume && r.approval.Some? then old(b.usedApprovals) + {r.approval.value}
                                 else old(b.usedApprovals)
    {
      b.toolCalls := b.toolCalls + 1;
      b.chainActions := Bump(b.chainActions, r.chain);
      b.operationAttempts := Bump(b.operationAttempts, r.operation);
      b.intentCalls := Bump(b.intentCalls, r.intent);
      if r.autonomous {
        b.autonomousActions := b.autonomousActions + 1;
      }
      b.active := b.active + {id};
      if consume && r.approval.Some? {
        b.usedApprovals := b.usedApprovals + {r.approval.value};
      }
    }

    /** Remember the call as in flight and count what it passes on. */
    static method Track(b: ToolExecutionBudget, r: Request, id: LeaseId)
      requires r.Valid() && r.context.Some?
      modifies b`activeSemantic, b`flowUses
      ensures b.activeSemantic == old(b.activeSemantic)[id := r]
      ensures b.flowUses == UseFlows(old(b.flowUses), FlowKeys(r))
    {
      b.activeSemantic := b.activeSemantic[id := r];
      var recorded := RecordFlows(b.flowUses, r);
      b.flowUses := recorded;
    }

    method Admits(b: ToolExecutionBudget, r: Request, prechecked: bool, consume: bool) returns (admitted: bool)
      ensures admitted <==> AuthorizeOk(policy, b.View(), r, prechecked, consume)
    {
      if !prechecked || (consume && r.approval.None?) {
        return false;
      }
      var semantics := SemanticsAllow(b, r);
      if !semantics {
        return false;
      }
      admitted := BudgetAllows(b, r, consume);
    }

    method Authorize(b: ToolExecutionBudget, r: Request, prechecked: bool, consume: bool, id: LeaseId)
      returns (outcome: Outcome)
      requires r.Valid()
      modifies b
      ensures (b.View(), outcome) == ToolModel.Authorize(policy, old(b.View()), r, prechecked, consume, id)
    {
      var admitted := Admits(b, r, prechecked, consume);
      if !admitted {
        return Refused;
      }
      Reserve(b, r, consume, id);
      if policy.semantics.Some? {
        Track(b, r, id);
      }
      return Granted(id);
    }

    method Complete(b: ToolExecutionBudget, session: int, id: LeaseId) returns (outcome: Outcome)
      modifies b`active
      ensures (b.View(), outcome) == ToolModel.Complete(old(b.View()), session, id)
    {
      if session != b.session {
        return Refused;
      }
      if id !in b.active || id in b.activeSemantic {
        return Refused;
      }
      b.active := b.active - {id};
      return Released(id);
    }

    method VerifyCompletion(b: ToolExecutionBudget, id: LeaseId, report: Report) returns (outcome: Outcome)
      modifies b
      ensures (b.View(), outcome) == ToolModel.VerifyCompletion(old(b.View()), id, report)
    {
      if id !in b.activeSemantic || id !in b.active {
        return Refused;
      }
      var r := b.activeSemantic[id];
      b.active := b.active - {id};
      b.activeSemantic := b.activeSemantic - {id};
      if !report.accepted {
        b.quarantined := b.quarantined + {r.chain};
      } else if report.succeeded {
        b.verified := b.verified[id := Execution(r.tool, r.chain, r.intent, report.resources, report.outputs)];
        b.history := b.history[r.chain := HistoryOf(b.history, r.chain) + [id]];
      }
      return Settled(id, report.accepted);
    }
  }
}
