/** Exactly which steps and mutations are authorised, field by field, in terms of what the run did before. */
module GoalDecisions {
  import opened Wrappers
  import opened GoalModel
  import opened GoalInvariants
  import opened GoalRaces

  /******* Digests *******/

  /** The same goal but for the order of its constraints. */
  ghost predicate SameGoal(g: Goal, h: Goal) {
    && g.objective == h.objective && g.actions == h.actions && g.delegates == h.delegates
    && (forall c :: c in g.constraints <==> c in h.constraints)
  }

  /** A digest tells everything about a manifest except the order of its constraints. */
  lemma DigestTells(m: Manifest, n: Manifest)
    ensures DigestOf(m) == DigestOf(n) <==>
            && m.binding == n.binding && SameGoal(m.goal, n.goal) && m.issuedAt == n.issuedAt
            && m.revision == n.revision && m.parent == n.parent && m.root == n.root
  {
    ConstraintsAreElements(m.goal);
    ConstraintsAreElements(n.goal);
    if SameGoal(m.goal, n.goal) {
      assert GoalDigestOf(m.goal).constraints == GoalDigestOf(n.goal).constraints;
    }
  }

  lemma ConstraintsAreElements(g: Goal)
    ensures forall c :: c in GoalDigestOf(g).constraints <==> c in g.constraints
    ensures forall i :: i in ConstraintIds(g) <==> exists c :: c in g.constraints && c.id == i
  {
    forall c | c in g.constraints ensures c in GoalDigestOf(g).constraints && c.id in ConstraintIds(g) {
      var k :| 0 <= k < |g.constraints| && g.constraints[k] == c;
      assert g.constraints[k].id == c.id;
    }
  }

  /******* Delegates and steps as history *******/

  /** One of the first `n` actions authorised a step that delegates to `d`, and no mutation since drops `d`. */
  ghost predicate Delegated(p: Policy, s: State, run: seq<Action>, n: nat, d: Identity)
    requires n <= |run|
  {
    n > 0 &&
    (|| (OutcomeAt(p, s, run, n - 1).StepAuthorized? && OutcomeAt(p, s, run, n - 1).step.delegatedTo == Some(d))
     || (Delegated(p, s, run, n - 1, d) && !Drops(p, s, run, n - 1, d)))
  }

  lemma ActionMovesDelegate(p: Policy, s: State, a: Action, d: Identity)
    ensures var (after, o) := Apply(p, s, a);
            d in after.delegates <==>
              || (o.StepAuthorized? && o.step.delegatedTo == Some(d))
              || (d in s.delegates && !(o.MutationAuthorized? && d !in o.updated.goal.delegates))
  {
  }

  /** The active delegates are those delegated to and not dropped since. */
  lemma {:induction false} ActiveIffDelegated(p: Policy, m: Manifest, run: seq<Action>, n: nat, d: Identity)
    requires n <= |run|
    ensures d in Run(p, NewState(m), run[..n]).delegates <==> Delegated(p, NewState(m), run, n, d)
  {
    if n > 0 {
      ActiveIffDelegated(p, m, run, n - 1, d);
      RunExtends(p, NewState(m), run, n - 1);
      ActionMovesDelegate(p, Run(p, NewState(m), run[..n - 1]), run[n - 1], d);
    }
  }

  /** One of the first `n` actions authorised a step of this id. */
  predicate Done(p: Policy, s: State, run: seq<Action>, n: nat, id: int)
    requires n <= |run|
  {
    n > 0 &&
    ((OutcomeAt(p, s, run, n - 1).StepAuthorized? && OutcomeAt(p, s, run, n - 1).step.id == id) || Done(p, s, run, n - 1, id))
  }

  /** How many of the first `n` actions authorised a step. */
  function StepsDone(p: Policy, s: State, run: seq<Action>, n: nat): nat
    requires n <= |run|
  {
    if n == 0 then 0
    else StepsDone(p, s, run, n - 1) + if OutcomeAt(p, s, run, n - 1).StepAuthorized? then 1 else 0
  }

  lemma ActionMovesSteps(p: Policy, s: State, a: Action, id: int)
    ensures var (after, o) := Apply(p, s, a);
            && (id in after.seenSteps <==> id in s.seenSteps || (o.StepAuthorized? && o.step.id == id))
            && after.stepCount == s.stepCount + if o.StepAuthorized? then 1 else 0
  {
  }

  lemma {:induction false} StepTablesAreHistory(p: Policy, m: Manifest, run: seq<Action>, n: nat, id: int)
    requires n <= |run|
    ensures var s := Run(p, NewState(m), run[..n]);
            && (id in s.seenSteps <==> Done(p, NewState(m), run, n, id))
            && s.stepCount == StepsDone(p, NewState(m), run, n)
  {
    if n > 0 {
      StepTablesAreHistory(p, m, run, n - 1, id);
      RunExtends(p, NewState(m), run, n - 1);
      ActionMovesSteps(p, Run(p, NewState(m), run[..n - 1]), run[n - 1], id);
    }
  }

  /******* Steps *******/

  /** The manifest presented is intact, unexpired, and the one current at this moment. */
  predicate ManifestHolds(s: State, m: Manifest, intact: bool, now: int) {
    intact && DigestOf(m) == s.digest && now < m.binding.expiresAt && now < m.binding.contextExpiresAt
  }

  /** What the manifest and the policy ask of a step, whatever has been done before. */
  ghost predicate StepFits(p: Policy, m: Manifest, x: PlanStep) {
    && x.intended && x.clean && x.expected == DigestOf(m)
    && |x.description| <= p.maxStepChars
    && x.action in m.goal.actions
    && (x.delegatedTo == None || x.delegatedTo.value in m.goal.delegates)
    && (forall i :: i in x.constraintIds ==> exists c :: c in m.goal.constraints && c.id == i)
    && (p.requireAllConstraints ==> forall c :: c in m.goal.constraints ==> c.id in x.constraintIds)
  }

  /** What the steps done so far ask of the next. */
  predicate ComesNext(p: Policy, s: State, run: seq<Action>, n: nat, x: PlanStep)
    requires n <= |run|
  {
    && StepsDone(p, s, run, n) < p.maxSteps
    && x.sequence == StepsDone(p, s, run, n) + 1
    && !Done(p, s, run, n, x.id)
  }

  lemma ConstraintsBoundIff(p: Policy, m: Manifest, x: PlanStep)
    ensures (if p.requireAllConstraints then x.constraintIds == ConstraintIds(m.goal)
             else x.constraintIds <= ConstraintIds(m.goal)) <==>
            && (forall i :: i in x.constraintIds ==> exists c :: c in m.goal.constraints && c.id == i)
            && (p.requireAllConstraints ==> forall c :: c in m.goal.constraints ==> c.id in x.constraintIds)
  {
    ConstraintsAreElements(m.goal);
    var ids := ConstraintIds(m.goal);
    if (forall i :: i in x.constraintIds ==> exists c :: c in m.goal.constraints && c.id == i) {
      forall i | i in x.constraintIds ensures i in ids {
      }
    }
    if p.requireAllConstraints && forall c :: c in m.goal.constraints ==> c.id in x.constraintIds {
      forall i | i in ids ensures i in x.constraintIds {
      }
    }
  }

  /** In any run a step passes its check exactly when this holds. */
  lemma PassesIff(p: Policy, m: Manifest, run: seq<Action>, i: nat)
    requires i < |run| && run[i].CheckStep?
    ensures var here := Run(p, NewState(m), run[..i]);
            var x, n := run[i].step, run[i].manifest;
            Passes(p, here, run[i]) <==>
              && run[i].t !in here.calls
              && ManifestHolds(here, n, run[i].intact, run[i].now)
              && (x.actor == n.binding.primary || Delegated(p, NewState(m), run, i, x.actor))
              && StepFits(p, n, x) && ComesNext(p, NewState(m), run, i, x)
  {
    ActiveIffDelegated(p, m, run, i, run[i].step.actor);
    StepTablesAreHistory(p, m, run, i, run[i].step.id);
    ConstraintsBoundIff(p, run[i].manifest, run[i].step);
  }

  /** Action `i` checked, for thread `t`, this step under a manifest then current, and nothing has touched it since. */
  ghost predicate CheckedFor(p: Policy, s: State, run: seq<Action>, i: nat, t: int, x: PlanStep)
    requires i < |run|
  {
    && CheckedAt(p, s, run, i, t) && run[i].step == x
  }

  /** A commit authorises a step exactly when its thread has checked it, and it still comes next. */
  lemma StepAuthorizedIff(p: Policy, m: Manifest, run: seq<Action>, j: nat, x: PlanStep)
    requires j < |run| && run[j].Commit?
    ensures OutcomeAt(p, NewState(m), run, j) == StepAuthorized(x) <==>
            && (exists i :: 0 <= i < j && CheckedFor(p, NewState(m), run[..j], i, run[j].t, x))
            && ComesNext(p, NewState(m), run, j, x)
  {
    var before := run[..j];
    var here := Run(p, NewState(m), before);
    var t := run[j].t;
    StepTablesAreHistory(p, m, run, j, x.id);
    if t in here.calls && here.calls[t].StepChecked? && here.calls[t].step == x {
      StepWasChecked(p, NewState(m), before, t, here.calls[t].manifest, x);
      var i :| 0 <= i < |before| && CheckedAt(p, NewState(m), before, i, t) && before[i].step == x;
      assert CheckedFor(p, NewState(m), before, i, t, x);
    }
    if i :| 0 <= i < j && CheckedFor(p, NewState(m), before, i, t, x) {
      assert before[..j] == before;
      assert InProgress(here, t, before[i].manifest, x);
    }
  }

  /**
   Every authorised step met, when it was checked, all that its manifest and the policy ask: it was intended and
   clean, short enough, of an allowed action and delegate, carried only constraints of the goal, all of them if
   so required, and came from the primary identity or a delegate.
   */
  lemma AuthorizedStepFits(p: Policy, m: Manifest, run: seq<Action>, j: nat)
    requires j < |run| && OutcomeAt(p, NewState(m), run, j).StepAuthorized?
    ensures var x := OutcomeAt(p, NewState(m), run, j).step;
            exists i :: 0 <= i < j && Commits(p, NewState(m), run, i, j) && FitsAt(p, NewState(m), run, i, x)
  {
    CommitHasCheck(p, m, run, j);
    var i :| 0 <= i < j && Commits(p, NewState(m), run, i, j);
    assert run[..j][..i] == run[..i] && run[..j][i] == run[i];
    PassesIff(p, m, run, i);
    assert FitsAt(p, NewState(m), run, i, run[i].step);
  }

  /** Action `i` checked the step under a manifest then current that it fits, for somebody who could act. */
  ghost predicate FitsAt(p: Policy, s: State, run: seq<Action>, i: nat, x: PlanStep)
    requires i < |run|
  {
    && run[i].CheckStep? && run[i].step == x
    && ManifestHolds(Run(p, s, run[..i]), run[i].manifest, run[i].intact, run[i].now)
    && (x.actor == run[i].manifest.binding.primary || Delegated(p, s, run, i, x.actor))
    && StepFits(p, run[i].manifest, x) && ComesNext(p, s, run, i, x)
  }

  /** A step checked and committed with nothing in between is authorised exactly when all of this holds. */
  lemma UninterruptedStepIff(p: Policy, s: State, t: int, m: Manifest, intact: bool, x: PlanStep, now: int)
    requires t !in s.calls
    ensures var checked := Apply(p, s, CheckStep(t, m, intact, x, now)).0;
            Apply(p, checked, Commit(t)).1 == StepAuthorized(x) <==>
              && ManifestHolds(s, m, intact, now) && StepFits(p, m, x)
              && (x.actor == m.binding.primary || x.actor in s.delegates)
              && x.id !in s.seenSteps && x.sequence == s.stepCount + 1 && s.stepCount < p.maxSteps
  {
    ConstraintsBoundIff(p, m, x);
  }

  /******* The drift history *******/

  function Joined(fragments: seq<string>): string {
    if fragments == [] then "" else Joined(fragments[..|fragments| - 1]) + fragments[|fragments| - 1]
  }

  lemma {:induction false} TotalIsLength(fragments: seq<string>)
    ensures Total(fragments) == |Joined(fragments)|
  {
    if fragments != [] {
      var front, last := fragments[..|fragments| - 1], fragments[|fragments| - 1];
      assert fragments == front + [last];
      TotalIsLength(front);
      TotalAppends(front, [last]);
      assert Total([last]) == |last| + Total([]);
    }
  }

  /** These are the most recent fragments that fit into the limit together, and one more would not. */
  ghost predicate MostRecentFit(kept: seq<string>, all: seq<string>, limit: nat) {
    && |Joined(kept)| <= limit
    && exists k :: 0 <= k <= |all| && kept == all[k..] && forall j :: 0 <= j < k ==> |Joined(all[j..])| > limit
  }

  /** In any run the drift history is the most recent fragments of the authorised steps that fit, and its length is kept. */
  lemma HistoryIsMostRecent(p: Policy, m: Manifest, run: seq<Action>)
    ensures var s := Run(p, NewState(m), run);
            && MostRecentFit(s.fragments, Fragments(Authorized(p, NewState(m), run)), p.maxDriftChars)
            && s.chars == |Joined(s.fragments)|
  {
    var s := Run(p, NewState(m), run);
    var all := Fragments(Authorized(p, NewState(m), run));
    StepsAreSequential(p, m, run);
    TrimIsLongestFit(all, p.maxDriftChars);
    TotalIsLength(s.fragments);
    var k :| 0 <= k <= |all| && s.fragments == all[k..] && forall j :: 0 <= j < k ==> Total(all[j..]) > p.maxDriftChars;
    forall j | 0 <= j < k ensures |Joined(all[j..])| > p.maxDriftChars { TotalIsLength(all[j..]); }
  }

  /******* Mutations *******/

  /** A proposed part replaces the old one, the rest is kept. */
  predicate GoalAfter(g: Goal, y: Mutation, h: Goal) {
    && h.objective == (if y.objective == None then g.objective else y.objective.value)
    && h.constraints == (if y.constraints == None then g.constraints else y.constraints.value)
    && h.actions == (if y.actions == None then g.actions else y.actions.value)
    && h.delegates == (if y.delegates == None then g.delegates else y.delegates.value)
  }

  /** The mutation is meant for this manifest, well formed, and changes something. */
  predicate MutationFits(m: Manifest, y: Mutation) {
    && y.intended && y.expected == DigestOf(m)
    && (y.constraints.Some? ==>
          forall i, j :: 0 <= i < |y.constraints.value| && 0 <= j < |y.constraints.value| && i != j ==>
            y.constraints.value[i].id != y.constraints.value[j].id)
    && (y.delegates.Some? ==> m.binding.primary !in y.delegates.value)
    && !GoalAfter(m.goal, y, m.goal)
  }

  /** The approval is for this very mutation, authentic, in time, and from somebody who may give it. */
  predicate Approved(m: Manifest, y: Mutation, now: int) {
    && y.approval.Some?
    && var a := y.approval.value; a.exact && a.authentic && now < a.expiresAt && a.approver in m.binding.approvers
  }

  /** The manifest that the mutation makes of `m`. */
  predicate Succeeds(m: Manifest, y: Mutation, now: int, n: Manifest) {
    && n.binding == m.binding && n.root == m.root && n.issuedAt == now
    && n.revision == m.revision + 1 && n.parent == Some(DigestOf(m))
    && GoalAfter(m.goal, y, n.goal)
  }

  /** Every mutation in progress fits the manifest it was checked against and, once counted, is approved. */
  ghost predicate MutationCallsFit(s: State) {
    forall t :: t in s.calls ==>
      match s.calls[t]
      case StepChecked(_, _) => true
      case MutationChecked(m, y, now) => MutationFits(m, y)
      case MutationCounted(m, y, now) => MutationFits(m, y) && Approved(m, y, now)
  }

  lemma MutationFitsIff(s: State, m: Manifest, y: Mutation)
    ensures MutationFits(m, y) <==> y.intended && y.expected == DigestOf(m) && StructureOk(m, y) && Material(m, y)
  {
    assert GoalAfter(m.goal, y, m.goal) <==> UpdatedGoal(m.goal, y) == m.goal;
  }

  lemma ActionKeepsMutationsFit(p: Policy, s: State, a: Action)
    requires MutationCallsFit(s)
    ensures MutationCallsFit(Apply(p, s, a).0)
  {
    if a.CheckMutation? { MutationFitsIff(s, a.manifest, a.mutation); }
  }

  lemma {:induction false} ReachableMutationsFit(p: Policy, m: Manifest, run: seq<Action>)
    ensures MutationCallsFit(Run(p, NewState(m), run))
  {
    if run != [] {
      ReachableMutationsFit(p, m, run[..|run| - 1]);
      ActionKeepsMutationsFit(p, Run(p, NewState(m), run[..|run| - 1]), run[|run| - 1]);
    }
  }

  /**
   Every authorised mutation fits the manifest that is current when it commits, has an authentic approval for
   this very mutation that nobody used before, and yields the manifest that replaces exactly what it proposes.
   */
  lemma AuthorizedMutationFits(p: Policy, m: Manifest, run: seq<Action>, j: nat)
    requires j < |run| && OutcomeAt(p, NewState(m), run, j).MutationAuthorized?
    ensures var here, o := Run(p, NewState(m), run[..j]), OutcomeAt(p, NewState(m), run, j);
            exists n, y, now :: here.digest == DigestOf(n) && MutationFits(n, y) && Approved(n, y, now)
              && y.approval.value.id == o.approval && o.approval !in here.usedApprovals
              && Succeeds(n, y, now, o.updated)
              && Run(p, NewState(m), run[..j + 1]).digest == DigestOf(o.updated)
  {
    var here := Run(p, NewState(m), run[..j]);
    ReachableMutationsFit(p, m, run[..j]);
    RunExtends(p, NewState(m), run, j);
    var c := here.calls[run[j].t];
    assert MutationFits(c.manifest, c.mutation) && Approved(c.manifest, c.mutation, c.now);
    assert Succeeds(c.manifest, c.mutation, c.now, OutcomeAt(p, NewState(m), run, j).updated);
  }

  /** A mutation is taken up exactly when its thread is free, the manifest holds, it fits, and its actor may act. */
  lemma MutationBeginsIff(p: Policy, s: State, t: int, m: Manifest, intact: bool, y: Mutation, now: int)
    ensures var after := Apply(p, s, CheckMutation(t, m, intact, y, now)).0;
            if t !in s.calls && ManifestHolds(s, m, intact, now) && MutationFits(m, y)
               && (y.actor == m.binding.primary || y.actor in s.delegates)
            then after == s.(calls := s.calls[t := MutationChecked(m, y, now)]) else after == s
  {
    MutationFitsIff(s, m, y);
  }

  /** A mutation taken up is counted when the limit and its approval allow, and given up otherwise. */
  lemma CountedIff(p: Policy, s: State, t: int, m: Manifest, y: Mutation, now: int)
    requires t in s.calls && s.calls[t] == MutationChecked(m, y, now)
    ensures Apply(p, s, CountMutations(t)).0
            == if s.mutationCount < p.maxMutations && Approved(m, y, now) && y.approval.value.id !in s.usedApprovals
               then s.(calls := s.calls[t := MutationCounted(m, y, now)]) else s.(calls := s.calls - {t})
  {
  }

  /** A mutation checked, counted and committed with nothing in between is authorised exactly when all of this holds. */
  lemma UninterruptedMutationIff(p: Policy, s: State, t: int, m: Manifest, intact: bool, y: Mutation, now: int)
    requires t !in s.calls
    ensures var checked := Apply(p, s, CheckMutation(t, m, intact, y, now)).0;
            var counted := Apply(p, checked, CountMutations(t)).0;
            var o := Apply(p, counted, Commit(t)).1;
            && (o.MutationAuthorized? <==>
                  && ManifestHolds(s, m, intact, now) && MutationFits(m, y) && Approved(m, y, now)
                  && (y.actor == m.binding.primary || y.actor in s.delegates)
                  && y.approval.value.id !in s.usedApprovals
                  && s.mutationCount < p.maxMutations && m.revision < MAX_REVISION)
            && (o.MutationAuthorized? ==> Succeeds(m, y, now, o.updated) && o.approval == y.approval.value.id)
  {
    MutationFitsIff(s, m, y);
  }
}
