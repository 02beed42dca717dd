/** What every interleaving of goal checks and commits keeps. */
module GoalInvariants {
  import opened Wrappers
  import opened GoalModel

  /******* Mutations *******/

  /** The manifest a call was checked against is the current one, or an older revision. */
  predicate NotAhead(s: State, m: Manifest) {
    DigestOf(m) == s.digest || m.revision < s.digest.revision
  }

  /** While the digest a counted mutation saw is still current, so is its count. */
  predicate CallOk(p: Policy, s: State, c: Call) {
    && NotAhead(s, c.manifest)
    && (c.MutationCounted? && DigestOf(c.manifest) == s.digest ==> s.mutationCount < p.maxMutations)
    && (c.MutationCounted? ==> c.mutation.approval.Some?)
  }

  /** Nothing but the goal, the issue time and the revision ever changes. */
  predicate SameRoot(start: Digest, here: Digest) {
    here.binding == start.binding && here.root == start.root
  }

  ghost predicate MutationsOk(p: Policy, start: Digest, s: State) {
    && s.digest.revision == start.revision + s.mutationCount
    && s.mutationCount <= p.maxMutations
    && |s.usedApprovals| == s.mutationCount
    && SameRoot(start, s.digest)
    && forall t :: t in s.calls ==> CallOk(p, s, s.calls[t])
  }

  lemma CheckStepKeeps(p: Policy, start: Digest, s: State, a: Action)
    requires MutationsOk(p, start, s) && (a.CheckStep? || a.CheckMutation? || a.CountMutations?)
    ensures MutationsOk(p, start, Apply(p, s, a).0)
  {
  }

  lemma CommitStepKeeps(p: Policy, start: Digest, s: State, t: int)
    requires MutationsOk(p, start, s) && t in s.calls && s.calls[t].StepChecked?
    ensures MutationsOk(p, start, Apply(p, s, Commit(t)).0)
  {
    var after := Apply(p, s, Commit(t)).0;
    forall u | u in after.calls ensures CallOk(p, after, after.calls[u]) {
      assert CallOk(p, s, s.calls[u]);
    }
  }

  lemma CommitMutationKeeps(p: Policy, start: Digest, s: State, t: int)
    requires MutationsOk(p, start, s) && t in s.calls && s.calls[t].MutationCounted?
    ensures MutationsOk(p, start, Apply(p, s, Commit(t)).0)
  {
    var after := Apply(p, s, Commit(t)).0;
    assert CallOk(p, s, s.calls[t]);
    forall u | u in after.calls ensures CallOk(p, after, after.calls[u]) {
      assert CallOk(p, s, s.calls[u]);
    }
  }

  lemma StepKeepsMutations(p: Policy, start: Digest, s: State, a: Action)
    requires MutationsOk(p, start, s)
    ensures MutationsOk(p, start, Apply(p, s, a).0)
  {
    if a.Commit? && a.t in s.calls {
      if s.calls[a.t].StepChecked? {
        CommitStepKeeps(p, start, s, a.t);
      } else if s.calls[a.t].MutationCounted? {
        CommitMutationKeeps(p, start, s, a.t);
      }
    } else if !a.Commit? {
      CheckStepKeeps(p, start, s, a);
    }
  }

  /**
   However the checks and commits of racing mutations interleave, the current revision less the first is
   the mutation count and the number of approvals used, and it never passes the limit: the count is read
   after the digest, and a commit needs that digest to be current still.
   */
  lemma {:induction false} RevisionCountsMutations(p: Policy, m: Manifest, run: seq<Action>)
    ensures MutationsOk(p, DigestOf(m), Run(p, NewState(m), run))
  {
    if run != [] {
      RevisionCountsMutations(p, m, run[..|run| - 1]);
      StepKeepsMutations(p, DigestOf(m), Run(p, NewState(m), run[..|run| - 1]), run[|run| - 1]);
    }
  }

  lemma StepKeepsUsed(p: Policy, s: State, a: Action)
    ensures s.usedApprovals <= Apply(p, s, a).0.usedApprovals
    ensures var (after, o) := Apply(p, s, a);
            o.MutationAuthorized? ==> o.approval !in s.usedApprovals && o.approval in after.usedApprovals
  {
  }

  /** An approval once consumed stays consumed to the end of the run. */
  lemma {:induction false} ConsumedStaysUsed(p: Policy, s: State, run: seq<Action>, i: nat)
    requires i < |run| && OutcomeAt(p, s, run, i).MutationAuthorized?
    ensures OutcomeAt(p, s, run, i).approval in Run(p, s, run).usedApprovals
    decreases |run|
  {
    var last := |run| - 1;
    var before := run[..last];
    StepKeepsUsed(p, Run(p, s, before), run[last]);
    if i < last {
      assert before[..i] == run[..i] && before[i] == run[i];
      ConsumedStaysUsed(p, s, before, i);
    }
  }

  /** Each approval authorises at most one mutation. */
  lemma ApprovalUsedOnce(p: Policy, s: State, run: seq<Action>, i: nat, j: nat)
    requires i < j < |run|
    requires OutcomeAt(p, s, run, i).MutationAuthorized? && OutcomeAt(p, s, run, j).MutationAuthorized?
    ensures OutcomeAt(p, s, run, i).approval != OutcomeAt(p, s, run, j).approval
  {
    var before := run[..j];
    assert before[..i] == run[..i] && before[i] == run[i];
    ConsumedStaysUsed(p, s, before, i);
    StepKeepsUsed(p, Run(p, s, before), run[j]);
  }

  /******* Plan steps *******/

  /** The steps a run authorised, in the order they were committed. */
  function Authorized(p: Policy, s: State, run: seq<Action>): seq<PlanStep> {
    if run == [] then [] else
      var before := run[..|run| - 1];
      var o := Apply(p, Run(p, s, before), run[|run| - 1]).1;
      if o.StepAuthorized? then Authorized(p, s, before) + [o.step] else Authorized(p, s, before)
  }

  function Fragments(steps: seq<PlanStep>): (r: seq<string>)
    ensures |r| == |steps|
  {
    seq(|steps|, i requires 0 <= i < |steps| => steps[i].fragment)
  }

  /** Exactly the sequences 1, 2, ... under distinct ids, and the drift history of precisely these steps. */
  ghost predicate StepsOk(p: Policy, s: State, steps: seq<PlanStep>) {
    && |steps| == s.stepCount && s.stepCount <= p.maxSteps
    && (forall i :: 0 <= i < |steps| ==> steps[i].sequence == i + 1)
    && (forall i :: 0 <= i < |steps| ==> steps[i].id in s.seenSteps)
    && (forall i, j :: 0 <= i < j < |steps| ==> steps[i].id != steps[j].id)
    && s.fragments == Trim(Fragments(steps), p.maxDriftChars)
    && s.chars == Total(s.fragments)
  }

  lemma {:induction false} TotalAppends(x: seq<string>, y: seq<string>)
    ensures Total(x + y) == Total(x) + Total(y)
  {
    if x == [] {
      assert x + y == y;
    } else {
      TotalAppends(x[1..], y);
      assert (x + y)[1..] == x[1..] + y;
    }
  }

  /** Trimming after every step keeps exactly what trimming the whole history at once would keep. */
  lemma {:induction false} TrimIsIncremental(history: seq<string>, next: string, limit: nat)
    ensures Trim(Trim(history, limit) + [next], limit) == Trim(history + [next], limit)
  {
    if Total(history) > limit {
      TotalAppends(history, [next]);
      assert (history + [next])[1..] == history[1..] + [next];
      TrimIsIncremental(history[1..], next, limit);
    }
  }

  /** What is kept is the longest run of most recent fragments that fits. */
  lemma {:induction false} TrimIsLongestFit(history: seq<string>, limit: nat)
    ensures Total(Trim(history, limit)) <= limit
    ensures exists k :: 0 <= k <= |history| && Trim(history, limit) == history[k..]
              && forall j :: 0 <= j < k ==> Total(history[j..]) > limit
  {
    if Total(history) <= limit {
      assert history[0..] == history;
    } else {
      var rest := history[1..];
      TrimIsLongestFit(rest, limit);
      var k :| 0 <= k <= |rest| && Trim(rest, limit) == rest[k..] && forall j :: 0 <= j < k ==> Total(rest[j..]) > limit;
      assert rest[k..] == history[k + 1..];
      forall j | 0 <= j < k + 1 ensures Total(history[j..]) > limit {
        if j == 0 { assert history[0..] == history; } else { assert history[j..] == rest[j - 1..]; }
      }
    }
  }

  lemma CommitExtendsSteps(p: Policy, s: State, rest: State, x: PlanStep, steps: seq<PlanStep>)
    requires StepsOk(p, s, steps) && StateStepOk(p, s, x) && rest == s.(calls := rest.calls)
    ensures StepsOk(p, CommitStep(p, rest, x), steps + [x])
  {
    assert Fragments(steps + [x]) == Fragments(steps) + [x.fragment];
    TrimIsIncremental(Fragments(steps), x.fragment, p.maxDriftChars);
  }

  lemma ActionKeepsSteps(p: Policy, s: State, a: Action, steps: seq<PlanStep>)
    requires StepsOk(p, s, steps)
    ensures var (after, o) := Apply(p, s, a); StepsOk(p, after, if o.StepAuthorized? then steps + [o.step] else steps)
  {
    if a.Commit? && a.t in s.calls && s.calls[a.t].StepChecked? && StateStepOk(p, s, s.calls[a.t].step) {
      CommitExtendsSteps(p, s, s.(calls := s.calls - {a.t}), s.calls[a.t].step, steps);
    }
  }

  /** However step checks interleave, the authorised steps are numbered 1 to the step count and have distinct ids. */
  lemma {:induction false} StepsAreSequential(p: Policy, m: Manifest, run: seq<Action>)
    ensures StepsOk(p, Run(p, NewState(m), run), Authorized(p, NewState(m), run))
  {
    if run == [] {
      assert Fragments([]) == [];
    } else {
      var before := run[..|run| - 1];
      StepsAreSequential(p, m, before);
      ActionKeepsSteps(p, Run(p, NewState(m), before), run[|run| - 1], Authorized(p, NewState(m), before));
    }
  }

  /******* Delegates *******/

  /** Every active delegate is one the current manifest allows. */
  predicate DelegatesAllowed(s: State) {
    s.delegates <= s.digest.goal.delegates
  }

  /** The step keeps to the actions, constraints and delegates of the manifest it was proposed under. */
  predicate MeetsManifest(x: PlanStep, m: Manifest) {
    && x.expected == DigestOf(m)
    && x.action in m.goal.actions
    && x.constraintIds <= ConstraintIds(m.goal)
    && (x.delegatedTo.Some? ==> x.delegatedTo.value in m.goal.delegates)
  }

  /** Every step in progress meets the manifest it was checked against. */
  ghost predicate StepsAllowed(s: State) {
    forall t :: t in s.calls && s.calls[t].StepChecked? ==> MeetsManifest(s.calls[t].step, s.calls[t].manifest)
  }

  lemma {:induction false} ReachableStepsAllowed(p: Policy, m: Manifest, run: seq<Action>)
    ensures StepsAllowed(Run(p, NewState(m), run))
  {
    if run != [] {
      ReachableStepsAllowed(p, m, run[..|run| - 1]);
      ActionKeepsStepsAllowed(p, Run(p, NewState(m), run[..|run| - 1]), run[|run| - 1]);
    }
  }

  lemma ActionKeepsStepsAllowed(p: Policy, s: State, a: Action)
    requires StepsAllowed(s)
    ensures StepsAllowed(Apply(p, s, a).0)
  {
  }

  /** `d` was the digest of the execution at some moment of the run. */
  ghost predicate WasCurrent(p: Policy, s: State, run: seq<Action>, d: Digest) {
    exists j :: 0 <= j <= |run| && Run(p, s, run[..j]).digest == d
  }

  /** Every call in progress was checked against a manifest that was current at some moment of the run. */
  ghost predicate CallsWereCurrent(p: Policy, s: State, run: seq<Action>) {
    forall t :: t in Run(p, s, run).calls ==> WasCurrent(p, s, run, DigestOf(Run(p, s, run).calls[t].manifest))
  }

  lemma WasCurrentLater(p: Policy, s: State, run: seq<Action>, d: Digest)
    requires run != [] && WasCurrent(p, s, run[..|run| - 1], d)
    ensures WasCurrent(p, s, run, d)
  {
    var before := run[..|run| - 1];
    var j :| 0 <= j <= |before| && Run(p, s, before[..j]).digest == d;
    assert before[..j] == run[..j];
  }

  /** A call after an action was there before with the same manifest, or was checked against the digest just then. */
  lemma CallsComeFrom(p: Policy, s: State, a: Action, t: int)
    requires t in Apply(p, s, a).0.calls
    ensures var m := Apply(p, s, a).0.calls[t].manifest;
            DigestOf(m) == s.digest || (t in s.calls && s.calls[t].manifest == m)
  {
  }

  lemma {:induction false} ReachableCallsWereCurrent(p: Policy, s: State, run: seq<Action>)
    requires s.calls == map[]
    ensures CallsWereCurrent(p, s, run)
  {
    if run != [] {
      var before := run[..|run| - 1];
      var here := Run(p, s, before);
      ReachableCallsWereCurrent(p, s, before);
      forall t | t in Run(p, s, run).calls
        ensures WasCurrent(p, s, run, DigestOf(Run(p, s, run).calls[t].manifest))
      {
        CallsComeFrom(p, here, run[|run| - 1], t);
        assert WasCurrent(p, s, before, here.digest) by { assert before[..|before|] == before; }
        WasCurrentLater(p, s, run, DigestOf(Run(p, s, run).calls[t].manifest));
      }
    }
  }

  /**
   Every authorised step keeps to the actions, constraints and delegates of a manifest whose digest was the
   current one of this execution at some earlier moment of the run.
   */
  lemma AuthorizedStepMeetsItsManifest(p: Policy, m: Manifest, run: seq<Action>, i: nat)
    requires i < |run| && OutcomeAt(p, NewState(m), run, i).StepAuthorized?
    ensures var x := OutcomeAt(p, NewState(m), run, i).step;
            && WasCurrent(p, NewState(m), run[..i], x.expected)
            && exists n :: x.expected == DigestOf(n) && MeetsManifest(x, n)
  {
    var s := Run(p, NewState(m), run[..i]);
    ReachableStepsAllowed(p, m, run[..i]);
    ReachableCallsWereCurrent(p, NewState(m), run[..i]);
    assert MeetsManifest(s.calls[run[i].t].step, s.calls[run[i].t].manifest);
  }

  /**
   The commit of a step looks at counters and ids again but not at the manifest. It leaves every active
   delegate allowed exactly when the step delegates to nobody, or to one the current manifest allows.
   */
  lemma StepCommitKeepsDelegatesIff(p: Policy, s: State, t: int)
    requires DelegatesAllowed(s) && t in s.calls && s.calls[t].StepChecked? && StateStepOk(p, s, s.calls[t].step)
    ensures DelegatesAllowed(Apply(p, s, Commit(t)).0) <==>
            var x := s.calls[t].step; x.delegatedTo.None? || x.delegatedTo.value in s.digest.goal.delegates
  {
    var x := s.calls[t].step;
    if x.delegatedTo.Some? { assert x.delegatedTo.value in Apply(p, s, Commit(t)).0.delegates; }
  }

  /** Every other action keeps the delegates allowed, and a committed mutation restores it. */
  lemma OtherActionsKeepDelegates(p: Policy, s: State, a: Action)
    requires !Apply(p, s, a).1.StepAuthorized?
    ensures DelegatesAllowed(s) || Apply(p, s, a).1.MutationAuthorized? ==> DelegatesAllowed(Apply(p, s, a).0)
  {
  }

  ghost predicate DelegatesAllowedAt(p: Policy, s: State, run: seq<Action>, n: nat)
    requires n <= |run|
  {
    DelegatesAllowed(Run(p, s, run[..n]))
  }

  /** Action `i` authorises a step that delegates to somebody the manifest current at that moment does not allow. */
  ghost predicate ActivatesDisallowed(p: Policy, s: State, run: seq<Action>, i: nat)
    requires i < |run|
  {
    var o := OutcomeAt(p, s, run, i);
    o.StepAuthorized? && o.step.delegatedTo.Some?
    && o.step.delegatedTo.value !in Run(p, s, run[..i]).digest.goal.delegates
  }

  lemma OneActionAllowedIff(p: Policy, s: State, run: seq<Action>, i: nat)
    requires i < |run| && DelegatesAllowedAt(p, s, run, i)
    ensures DelegatesAllowedAt(p, s, run, i + 1) <==> !ActivatesDisallowed(p, s, run, i)
  {
    var here := Run(p, s, run[..i]);
    assert run[..i + 1][..i] == run[..i];
    if Apply(p, here, run[i]).1.StepAuthorized? {
      StepCommitKeepsDelegatesIff(p, here, run[i].t);
    } else {
      OtherActionsKeepDelegates(p, here, run[i]);
    }
  }

  lemma {:induction false} AllowedUntilStale(p: Policy, s: State, run: seq<Action>, n: nat)
    requires DelegatesAllowed(s) && n <= |run|
    requires forall i :: 0 <= i < n ==> !ActivatesDisallowed(p, s, run, i)
    ensures DelegatesAllowedAt(p, s, run, n)
  {
    if n > 0 {
      AllowedUntilStale(p, s, run, n - 1);
      OneActionAllowedIff(p, s, run, n - 1);
    }
  }

  /** The active delegates stay allowed throughout a run exactly when no authorised step activates a disallowed one. */
  lemma DelegatesAllowedThroughoutIff(p: Policy, m: Manifest, run: seq<Action>)
    ensures var s := NewState(m);
            (forall n :: 0 <= n <= |run| ==> DelegatesAllowedAt(p, s, run, n)) <==>
            (forall i :: 0 <= i < |run| ==> !ActivatesDisallowed(p, s, run, i))
  {
    var s := NewState(m);
    if forall i :: 0 <= i < |run| ==> !ActivatesDisallowed(p, s, run, i) {
      forall n | 0 <= n <= |run| ensures DelegatesAllowedAt(p, s, run, n) { AllowedUntilStale(p, s, run, n); }
    } else {
      var i :| 0 <= i < |run| && ActivatesDisallowed(p, s, run, i);
      if DelegatesAllowedAt(p, s, run, i) { OneActionAllowedIff(p, s, run, i); }
    }
  }

  /** No step commits after the manifest it was checked against was superseded. */
  ghost predicate StepsCommitCurrent(p: Policy, s: State, run: seq<Action>) {
    forall i :: 0 <= i < |run| && OutcomeAt(p, s, run, i).StepAuthorized? ==>
      var before := Run(p, s, run[..i]); before.digest == DigestOf(before.calls[run[i].t].manifest)
  }

  /** Without such a race every active delegate is always one the current manifest allows. */
  lemma {:induction false} DelegatesStayAllowed(p: Policy, m: Manifest, run: seq<Action>)
    requires StepsCommitCurrent(p, NewState(m), run)
    ensures DelegatesAllowed(Run(p, NewState(m), run))
  {
    if run != [] {
      var last := |run| - 1;
      var before := run[..last];
      var s := Run(p, NewState(m), before);
      forall i | 0 <= i < last ensures before[i] == run[i] && before[..i] == run[..i] {
      }
      DelegatesStayAllowed(p, m, before);
      ReachableStepsAllowed(p, m, before);
      if OutcomeAt(p, NewState(m), run, last).StepAuthorized? {
        CommitOfCurrentStep(p, s, run[last].t);
      } else {
        OtherActionsKeepDelegates(p, s, run[last]);
      }
    }
  }

  lemma CommitOfCurrentStep(p: Policy, s: State, t: int)
    requires DelegatesAllowed(s) && StepsAllowed(s) && Apply(p, s, Commit(t)).1.StepAuthorized?
    requires s.digest == DigestOf(s.calls[t].manifest)
    ensures DelegatesAllowed(Apply(p, s, Commit(t)).0)
  {
    StepCommitKeepsDelegatesIff(p, s, t);
  }

  /**
   The race: a step delegating to `d` is checked, an approved mutation that removes `d` commits, and the
   step then commits, leaving `d` active although the current manifest no longer allows it.
   */
  lemma StaleStepActivatesDelegate(p: Policy, s: State, m: Manifest, x: PlanStep, y: Mutation, d: Identity,
                                   now: int, t: int, u: int)
    requires t != u && t !in s.calls && u !in s.calls && ManifestOk(s, m, true, now) && StepOk(p, s, m, x)
    requires x.delegatedTo == Some(d)
    requires y.intended && y.expected == DigestOf(m) && ActorOk(s, m, y.actor) && StructureOk(m, y)
    requires y.delegates.Some? && d !in y.delegates.value
    requires s.mutationCount < p.maxMutations && ApprovalOk(s, m, y, now) && m.revision < MAX_REVISION
    ensures var s1 := Apply(p, s, CheckStep(t, m, true, x, now)).0;
            var s2 := Apply(p, s1, CheckMutation(u, m, true, y, now)).0;
            var s3 := Apply(p, s2, CountMutations(u)).0;
            var s4 := Apply(p, s3, Commit(u)).0;
            var (s5, o) := Apply(p, s4, Commit(t));
            && o == StepAuthorized(x)
            && d in s5.delegates && d !in s5.digest.goal.delegates
            && ActorOk(s5, UpdatedManifest(m, y, now), d)
  {
    assert d in m.goal.delegates && UpdatedGoal(m.goal, y).delegates == y.delegates.value;
    var s1 := Apply(p, s, CheckStep(t, m, true, x, now)).0;
    assert s1.calls[t] == StepChecked(m, x);
    var s2 := Apply(p, s1, CheckMutation(u, m, true, y, now)).0;
    assert s2.calls[u] == MutationChecked(m, y, now) && s2.calls[t] == StepChecked(m, x);
    var s3 := Apply(p, s2, CountMutations(u)).0;
    assert s3.calls[u] == MutationCounted(m, y, now) && s3.calls[t] == StepChecked(m, x);
    var s4 := Apply(p, s3, Commit(u)).0;
    assert s4.calls[t] == StepChecked(m, x) && StateStepOk(p, s4, x);
  }

  lemma RunAppends(p: Policy, s: State, run: seq<Action>, a: Action)
    ensures Run(p, s, run + [a]) == Apply(p, Run(p, s, run), a).0
  {
    assert (run + [a])[..|run|] == run;
  }

  /** The race is reachable: an execution of one step and one mutation ends with a delegate nobody allows. */
  lemma DisallowedDelegateIsReachable()
    ensures exists p, m, run :: !DelegatesAllowed(Run(p, NewState(m), run))
  {
    var goal := Goal(0, [], {5}, {2});
    assert ConstraintIds(goal) == {};
    var m := Manifest(Binding(0, 0, 0, 0, 0, 1, {9}, 100, 100), goal, 0, 1, None, GoalDigestOf(goal));
    var x := PlanStep(0, 1, 1, DigestOf(m), {}, 5, Some(2), "x", "x", true, true);
    var y := Mutation(1, DigestOf(m), None, None, None, Some({}), Some(Approval(0, 9, 100, true, true)), true);
    var p := Policy(1, 1, 1, 1, true);
    var s := NewState(m);
    StaleStepActivatesDelegate(p, s, m, x, y, 2, 0, 0, 1);
    var run: seq<Action> := [];
    RunAppends(p, s, run, CheckStep(0, m, true, x, 0));
    run := run + [CheckStep(0, m, true, x, 0)];
    RunAppends(p, s, run, CheckMutation(1, m, true, y, 0));
    run := run + [CheckMutation(1, m, true, y, 0)];
    RunAppends(p, s, run, CountMutations(1));
    run := run + [CountMutations(1)];
    RunAppends(p, s, run, Commit(1));
    run := run + [Commit(1)];
    RunAppends(p, s, run, Commit(0));
    run := run + [Commit(0)];
    assert !DelegatesAllowed(Run(p, s, run));
  }
}
