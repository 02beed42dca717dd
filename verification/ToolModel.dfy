/**
 Specification of tool authorisation: an execution budget per session, with leases, counters, per-chain
 sequencing, data-flow provenance and quarantine.

 The checks of a request that read no budget (identity, intent, scopes, arguments, ownership, approval
 authenticity) are one boolean, and so is the outcome of checking a report against its postconditions.
 */
module ToolModel {
  import opened Wrappers

  type Tool = int
  type Chain = int
  type LeaseId = int
  type FlowKey = (LeaseId, Tool, int)   // source lease, target tool, target argument

  /******* Policy *******/

  datatype FlowRule = FlowRule(
    source: Tool,
    target: Tool,
    argument: int,
    labels: set<int>,
    sameIntent: bool,
    sameResource: bool,
    maxUses: nat)

  /** A semantic policy covers every tool of the manifest. */
  datatype Semantics = Semantics(
    transitions: set<(Tool, Tool)>,
    denyTransitions: bool,
    rules: seq<FlowRule>,
    denyFlows: bool)

  datatype Policy = Policy(
    maxToolCalls: nat,
    maxChainActions: nat,
    maxRetries: nat,
    maxParallel: nat,
    maxAutonomous: nat,
    semantics: Option<Semantics>)

  /******* Requests and reports *******/

  /** `intact`: the target argument is present and hashes to the digest. */
  datatype Flow = Flow(source: LeaseId, argument: int, tag: int, digest: int, intact: bool)

  /** `otherwiseOk`: effects, facts, bindings, destinations and required provenance all check out. */
  datatype Context = Context(flows: seq<Flow>, targets: set<int>, otherwiseOk: bool)
  {
    /** What the context's own validator demands. */
    predicate Valid() {
      forall i, j :: 0 <= i < j < |flows| ==> flows[i].argument != flows[j].argument
    }
  }

  datatype Request = Request(
    session: int,
    tool: Tool,
    chain: Chain,
    operation: int,
    intent: int,
    intentLimit: nat,
    autonomous: bool,
    approval: Option<int>,
    context: Option<Context>)
  {
    predicate Valid() {
      context.Some? ==> context.value.Valid()
    }
  }

  /** What a trusted executor observed; `accepted` when no postcondition finding arises. */
  datatype Report = Report(accepted: bool, succeeded: bool, resources: set<int>, outputs: map<int, int>)

  datatype Execution = Execution(tool: Tool, chain: Chain, intent: int, resources: set<int>, outputs: map<int, int>)

  /******* Budget *******/

  datatype Budget = Budget(
    session: int,
    toolCalls: nat,
    autonomousActions: nat,
    intentCalls: map<int, nat>,
    operationAttempts: map<int, nat>,
    chainActions: map<Chain, nat>,
    active: set<LeaseId>,
    usedApprovals: set<int>,
    activeSemantic: map<LeaseId, Request>,
    verified: map<LeaseId, Execution>,
    history: map<Chain, seq<LeaseId>>,
    quarantined: set<Chain>,
    flowUses: map<FlowKey, nat>)

  function NewBudget(session: int): Budget {
    Budget(session, 0, 0, map[], map[], map[], {}, {}, map[], map[], map[], {}, map[])
  }

  function Count<K>(m: map<K, nat>, k: K): nat {
    if k in m then m[k] else 0
  }

  function Bump<K>(m: map<K, nat>, k: K): map<K, nat> {
    m[k := Count(m, k) + 1]
  }

  function HistoryOf(history: map<Chain, seq<LeaseId>>, chain: Chain): seq<LeaseId> {
    if chain in history then history[chain] else []
  }

  /******* Checks under the lock *******/

  function MatchingRule(rules: seq<FlowRule>, source: Tool, target: Tool, argument: int, tag: int): Option<FlowRule> {
    if rules == [] then None
    else if rules[0].source == source && rules[0].target == target && rules[0].argument == argument
            && tag in rules[0].labels then Some(rules[0])
    else MatchingRule(rules[1..], source, target, argument, tag)
  }

  predicate FlowOk(p: Semantics, b: Budget, r: Request, targets: set<int>, f: Flow) {
    && f.intact
    && f.source in b.verified
    && var source := b.verified[f.source];
       && source.chain == r.chain
       && f.tag in source.outputs && source.outputs[f.tag] == f.digest
       && match MatchingRule(p.rules, source.tool, r.tool, f.argument, f.tag)
          case None => !p.denyFlows
          case Some(rule) =>
            && Count(b.flowUses, (f.source, r.tool, f.argument)) < rule.maxUses
            && (rule.sameIntent ==> source.intent == r.intent)
            && (rule.sameResource ==> source.resources * targets != {})
  }

  /** The last verified call of the chain may be followed by this tool. */
  predicate SequenceOk(p: Semantics, b: Budget, r: Request) {
    var history := HistoryOf(b.history, r.chain);
    history == []
    || !p.denyTransitions
    || (history[|history| - 1] in b.verified && (b.verified[history[|history| - 1]].tool, r.tool) in p.transitions)
  }

  predicate ChainBusy(b: Budget, chain: Chain) {
    exists i :: i in b.activeSemantic && b.activeSemantic[i].chain == chain
  }

  predicate SemanticOk(p: Policy, b: Budget, r: Request) {
    p.semantics.Some? ==>
      && r.chain !in b.quarantined
      && r.context.Some?
      && r.context.value.otherwiseOk
      && !ChainBusy(b, r.chain)
      && SequenceOk(p.semantics.value, b, r)
      && forall i :: 0 <= i < |r.context.value.flows| ==>
           FlowOk(p.semantics.value, b, r, r.context.value.targets, r.context.value.flows[i])
  }

  predicate BudgetOk(p: Policy, b: Budget, r: Request, consume: bool) {
    && r.session == b.session
    && !(consume && r.approval.Some? && r.approval.value in b.usedApprovals)
    && b.toolCalls < p.maxToolCalls
    && Count(b.chainActions, r.chain) < p.maxChainActions
    && Count(b.operationAttempts, r.operation) <= p.maxRetries
    && |b.active| < p.maxParallel
    && (r.autonomous ==> b.autonomousActions < p.maxAutonomous)
    && Count(b.intentCalls, r.intent) < r.intentLimit
  }

  /******* Operations *******/

  datatype Outcome = Refused | Granted(id: LeaseId) | Released(lease: LeaseId) | Settled(closed: LeaseId, ok: bool)

  function FlowKeys(r: Request): set<FlowKey> {
    if r.context.None? then {}
    else
      var flows := r.context.value.flows;
      set i | 0 <= i < |flows| :: (flows[i].source, r.tool, flows[i].argument)
  }

  function UseFlows(uses: map<FlowKey, nat>, keys: set<FlowKey>): map<FlowKey, nat> {
    map k | k in uses.Keys + keys :: if k in keys then Count(uses, k) + 1 else uses[k]
  }

  /** `consume`: the effects of the tool need an approval; without one the request never reaches the lock. */
  predicate AuthorizeOk(p: Policy, b: Budget, r: Request, prechecked: bool, consume: bool) {
    prechecked && (consume ==> r.approval.Some?) && SemanticOk(p, b, r) && BudgetOk(p, b, r, consume)
  }

  /** The budget with the call reserved, and recorded as in flight when a semantic policy tracks it. */
  function Reserve(p: Policy, b: Budget, r: Request, consume: bool, id: LeaseId): Budget {
    Budget(
      b.session,
      b.toolCalls + 1,
      if r.autonomous then b.autonomousActions + 1 else b.autonomousActions,
      Bump(b.intentCalls, r.intent),
      Bump(b.operationAttempts, r.operation),
      Bump(b.chainActions, r.chain),
      b.active + {id},
      if consume && r.approval.Some? then b.usedApprovals + {r.approval.value} else b.usedApprovals,
      if p.semantics.Some? then b.activeSemantic[id := r] else b.activeSemantic,
      b.verified,
      b.history,
      b.quarantined,
      if p.semantics.Some? then UseFlows(b.flowUses, FlowKeys(r)) else b.flowUses)
  }

  function Authorize(p: Policy, b: Budget, r: Request, prechecked: bool, consume: bool, id: LeaseId): (Budget, Outcome) {
    if AuthorizeOk(p, b, r, prechecked, consume) then (Reserve(p, b, r, consume, id), Granted(id)) else (b, Refused)
  }

  function Complete(b: Budget, session: int, id: LeaseId): (Budget, Outcome) {
    if session == b.session && id in b.active && id !in b.activeSemantic then
      (b.(active := b.active - {id}), Released(id))
    else
      (b, Refused)
  }

  function VerifyCompletion(b: Budget, id: LeaseId, report: Report): (Budget, Outcome) {
    if id !in b.activeSemantic || id !in b.active then (b, Refused)
    else
      var r := b.activeSemantic[id];
      var closed := b.(active := b.active - {id}, activeSemantic := b.activeSemantic - {id});
      (if !report.accepted then closed.(quarantined := b.quarantined + {r.chain})
       else if report.succeeded then
         closed.(verified := b.verified[id := Execution(r.tool, r.chain, r.intent, report.resources, report.outputs)],
                 history := b.history[r.chain := HistoryOf(b.history, r.chain) + [id]])
       else closed,
       Settled(id, report.accepted))
  }

  /******* Runs *******/

  datatype Step =
    | DoAuthorize(request: Request, prechecked: bool, consume: bool, id: LeaseId)
    | DoComplete(session: int, lease: LeaseId)
    | DoVerify(closing: LeaseId, report: Report)

  function Apply(p: Policy, b: Budget, step: Step): (Budget, Outcome) {
    match step
    case DoAuthorize(r, prechecked, consume, id) => Authorize(p, b, r, prechecked, consume, id)
    case DoComplete(session, id) => Complete(b, session, id)
    case DoVerify(id, report) => VerifyCompletion(b, id, report)
  }

  function Run(p: Policy, session: int, run: seq<Step>): Budget {
    if run == [] then NewBudget(session) else Apply(p, Run(p, session, run[..|run| - 1]), run[|run| - 1]).0
  }

  function OutcomeAt(p: Policy, session: int, run: seq<Step>, i: nat): Outcome
    requires i < |run|
  {
    Apply(p, Run(p, session, run[..i]), run[i]).1
  }

  /** Lease ids are fresh UUIDs: no two authorisations of a run are offered the same one. */
  ghost predicate FreshIds(run: seq<Step>) {
    forall i, j :: 0 <= i < j < |run| && run[i].DoAuthorize? && run[j].DoAuthorize? ==> run[i].id != run[j].id
  }

  ghost predicate RunValid(run: seq<Step>) {
    forall i :: 0 <= i < |run| && run[i].DoAuthorize? ==> run[i].request.Valid()
  }
}
