/**
 Specification of goal integrity: plan steps and goal mutations of one execution, checked before a lock
 and committed under it, with the calls of several threads interleaved.

 Digests are injective; the goal digest sorts the constraints, so it does not see their order. Hijack
 detection, the normaliser and the approval verifier are inputs.
 */
module GoalModel {
  import opened Wrappers

  type Identity = int

  /******* Manifests *******/

  datatype Constraint = Constraint(id: int, content: int)

  datatype Goal = Goal(objective: int, constraints: seq<Constraint>, actions: set<int>, delegates: set<Identity>)

  datatype Binding = Binding(
    manifest: int,
    execution: int,
    session: int,
    owner: Identity,
    tenant: Identity,
    primary: Identity,
    approvers: set<Identity>,
    contextExpiresAt: int,
    expiresAt: int)

  datatype GoalDigest = GoalDigest(objective: int, constraints: set<Constraint>, actions: set<int>, delegates: set<Identity>)

  datatype Digest = Digest(
    binding: Binding,
    goal: GoalDigest,
    issuedAt: int,
    revision: nat,
    parent: Option<Digest>,
    root: GoalDigest)

  datatype Manifest = Manifest(
    binding: Binding,
    goal: Goal,
    issuedAt: int,
    revision: nat,
    parent: Option<Digest>,
    root: GoalDigest)

  /** The largest revision a manifest can carry. */
  const MAX_REVISION := 10000

  function GoalDigestOf(g: Goal): GoalDigest {
    GoalDigest(g.objective, set i | 0 <= i < |g.constraints| :: g.constraints[i], g.actions, g.delegates)
  }

  function DigestOf(m: Manifest): Digest {
    Digest(m.binding, GoalDigestOf(m.goal), m.issuedAt, m.revision, m.parent, m.root)
  }

  function ConstraintIds(g: Goal): set<int> {
    set i | 0 <= i < |g.constraints| :: g.constraints[i].id
  }

  /******* Proposals *******/

  /** `intended`: execution, session, owner and tenant are the manifest's; `clean`: no hijack was detected. */
  datatype PlanStep = PlanStep(
    id: int,
    sequence: int,
    actor: Identity,
    expected: Digest,
    constraintIds: set<int>,
    action: int,
    delegatedTo: Option<Identity>,
    description: string,
    fragment: string,
    intended: bool,
    clean: bool)

  /** `exact`: issued for this very mutation; `authentic`: trusted state confirms it. */
  datatype Approval = Approval(id: int, approver: Identity, expiresAt: int, exact: bool, authentic: bool)

  datatype Mutation = Mutation(
    actor: Identity,
    expected: Digest,
    objective: Option<int>,
    constraints: Option<seq<Constraint>>,
    actions: Option<set<int>>,
    delegates: Option<set<Identity>>,
    approval: Option<Approval>,
    intended: bool)

  datatype Policy = Policy(
    maxSteps: nat,
    maxMutations: nat,
    maxStepChars: nat,
    maxDriftChars: nat,
    requireAllConstraints: bool)

  /******* Execution state *******/

  /** A call between its checks and its locked commit. */
  datatype Call =
    | StepChecked(manifest: Manifest, step: PlanStep)
    | MutationChecked(manifest: Manifest, mutation: Mutation, now: int)
    | MutationCounted(manifest: Manifest, mutation: Mutation, now: int)

  datatype State = State(
    digest: Digest,
    delegates: set<Identity>,
    stepCount: nat,
    mutationCount: nat,
    seenSteps: set<int>,
    usedApprovals: set<int>,
    fragments: seq<string>,
    chars: nat,
    calls: map<int, Call>)

  function NewState(m: Manifest): State {
    State(DigestOf(m), {}, 0, 0, {}, {}, [], 0, map[])
  }

  predicate ManifestOk(s: State, m: Manifest, intact: bool, now: int) {
    intact && now < m.binding.expiresAt && now < m.binding.contextExpiresAt && s.digest == DigestOf(m)
  }

  predicate ActorOk(s: State, m: Manifest, actor: Identity) {
    actor == m.binding.primary || actor in s.delegates
  }

  /** What is checked again under the lock. */
  predicate StateStepOk(p: Policy, s: State, x: PlanStep) {
    x.id !in s.seenSteps && x.sequence == s.stepCount + 1 && s.stepCount < p.maxSteps
  }

  predicate StepOk(p: Policy, s: State, m: Manifest, x: PlanStep) {
    && x.intended && x.expected == DigestOf(m) && ActorOk(s, m, x.actor)
    && StateStepOk(p, s, x)
    && (if p.requireAllConstraints then x.constraintIds == ConstraintIds(m.goal)
        else x.constraintIds <= ConstraintIds(m.goal))
    && x.action in m.goal.actions
    && (x.delegatedTo.Some? ==> x.delegatedTo.value in m.goal.delegates)
    && |x.description| <= p.maxStepChars
    && x.clean
  }

  function Total(fragments: seq<string>): nat {
    if fragments == [] then 0 else |fragments[0]| + Total(fragments[1..])
  }

  /** Drop the oldest fragments until the rest fits. */
  function Trim(fragments: seq<string>, limit: nat): seq<string> {
    if Total(fragments) <= limit then fragments else Trim(fragments[1..], limit)
  }

  function CommitStep(p: Policy, s: State, x: PlanStep): State {
    var kept := Trim(s.fragments + [x.fragment], p.maxDriftChars);
    s.(stepCount := s.stepCount + 1,
       seenSteps := s.seenSteps + {x.id},
       fragments := kept,
       chars := Total(kept),
       delegates := if x.delegatedTo.Some? then s.delegates + {x.delegatedTo.value} else s.delegates)
  }

  predicate StructureOk(m: Manifest, x: Mutation) {
    && (x.constraints.Some? ==>
          forall i, j :: 0 <= i < j < |x.constraints.value| ==> x.constraints.value[i].id != x.constraints.value[j].id)
    && (x.delegates.Some? ==> m.binding.primary !in x.delegates.value)
  }

  function UpdatedGoal(g: Goal, x: Mutation): Goal {
    Goal(if x.objective.Some? then x.objective.value else g.objective,
         if x.constraints.Some? then x.constraints.value else g.constraints,
         if x.actions.Some? then x.actions.value else g.actions,
         if x.delegates.Some? then x.delegates.value else g.delegates)
  }

  /** Whether the mutation changes anything; reordering the constraints counts. */
  predicate Material(m: Manifest, x: Mutation) {
    UpdatedGoal(m.goal, x) != m.goal
  }

  predicate ApprovalOk(s: State, m: Manifest, x: Mutation, now: int) {
    && x.approval.Some?
    && x.approval.value.id !in s.usedApprovals
    && now < x.approval.value.expiresAt
    && x.approval.value.exact && x.approval.value.authentic
    && x.approval.value.approver in m.binding.approvers
  }

  function UpdatedManifest(m: Manifest, x: Mutation, now: int): Manifest {
    Manifest(m.binding, UpdatedGoal(m.goal, x), now, m.revision + 1, Some(DigestOf(m)), m.root)
  }

  predicate CommitMutationOk(s: State, m: Manifest, x: Mutation) {
    && x.approval.Some? && x.approval.value.id !in s.usedApprovals
    && s.digest == DigestOf(m)
    && m.revision < MAX_REVISION
  }

  function CommitMutation(s: State, m: Manifest, x: Mutation, now: int): State
    requires x.approval.Some?
  {
    var updated := UpdatedManifest(m, x, now);
    s.(digest := DigestOf(updated),
       mutationCount := s.mutationCount + 1,
       usedApprovals := s.usedApprovals + {x.approval.value.id},
       delegates := s.delegates * updated.goal.delegates)
  }

  /******* Runs *******/

  datatype Action =
    | CheckStep(t: int, manifest: Manifest, intact: bool, step: PlanStep, now: int)
    | CheckMutation(t: int, manifest: Manifest, intact: bool, mutation: Mutation, now: int)
    | CountMutations(t: int)
    | Commit(t: int)

  datatype Outcome =
    | Nothing
    | Unchanged(same: Manifest)
    | StepAuthorized(step: PlanStep)
    | MutationAuthorized(updated: Manifest, approval: int)

  function Apply(p: Policy, s: State, a: Action): (State, Outcome) {
    match a
    case CheckStep(t, m, intact, x, now) =>
      if t !in s.calls && ManifestOk(s, m, intact, now) && StepOk(p, s, m, x)
        then (s.(calls := s.calls[t := StepChecked(m, x)]), Nothing)
        else (s, Nothing)
    case CheckMutation(t, m, intact, x, now) =>
      if t !in s.calls && ManifestOk(s, m, intact, now) && x.intended && x.expected == DigestOf(m)
         && ActorOk(s, m, x.actor) && StructureOk(m, x) then
        if Material(m, x) then (s.(calls := s.calls[t := MutationChecked(m, x, now)]), Nothing)
        else (s, Unchanged(m))
      else
        (s, Nothing)
    case CountMutations(t) =>
      if t in s.calls && s.calls[t].MutationChecked? then
        var c := s.calls[t];
        if s.mutationCount < p.maxMutations && ApprovalOk(s, c.manifest, c.mutation, c.now)
          then (s.(calls := s.calls[t := MutationCounted(c.manifest, c.mutation, c.now)]), Nothing)
          else (s.(calls := s.calls - {t}), Nothing)
      else
        (s, Nothing)
    case Commit(t) =>
      if t !in s.calls || s.calls[t].MutationChecked? then (s, Nothing)
      else
        var rest := s.(calls := s.calls - {t});
        match s.calls[t]
        case StepChecked(m, x) =>
          if StateStepOk(p, s, x) then (CommitStep(p, rest, x), StepAuthorized(x)) else (rest, Nothing)
        case MutationCounted(m, x, now) =>
          if CommitMutationOk(s, m, x)
            then (CommitMutation(rest, m, x, now), MutationAuthorized(UpdatedManifest(m, x, now), x.approval.value.id))
            else (rest, Nothing)
  }

  function Run(p: Policy, s: State, run: seq<Action>): State {
    if run == [] then s else Apply(p, Run(p, s, run[..|run| - 1]), run[|run| - 1]).0
  }

  function OutcomeAt(p: Policy, s: State, run: seq<Action>, i: nat): Outcome
    requires i < |run|
  {
    Apply(p, Run(p, s, run[..i]), run[i]).1
  }
}
