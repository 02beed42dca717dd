/** What may happen between the check of a plan step and its commit. */
module GoalRaces {
  import opened Wrappers
  import opened GoalModel
  import opened GoalInvariants

  /******* The check of a step *******/

  /** The checks of a step, on this state. */
  predicate Passes(p: Policy, s: State, a: Action)
    requires a.CheckStep?
  {
    a.t !in s.calls && ManifestOk(s, a.manifest, a.intact, a.now) && StepOk(p, s, a.manifest, a.step)
  }

  /** Action `i` checked the step that thread `t` has had in progress ever since. */
  ghost predicate CheckedAt(p: Policy, s: State, run: seq<Action>, i: nat, t: int)
    requires i < |run|
  {
    && run[i].CheckStep? && run[i].t == t
    && Passes(p, Run(p, s, run[..i]), run[i])
    && forall k :: i < k <= |run| ==> InProgress(Run(p, s, run[..k]), t, run[i].manifest, run[i].step)
  }

  predicate InProgress(s: State, t: int, m: Manifest, x: PlanStep) {
    t in s.calls && s.calls[t] == StepChecked(m, x)
  }

  lemma StepComesFrom(p: Policy, s: State, a: Action, t: int, m: Manifest, x: PlanStep)
    requires InProgress(Apply(p, s, a).0, t, m, x)
    ensures InProgress(s, t, m, x)
            || (a.CheckStep? && a.t == t && a.manifest == m && a.step == x && Passes(p, s, a))
  {
  }

  lemma CheckedLater(p: Policy, s: State, run: seq<Action>, i: nat, t: int)
    requires run != [] && i < |run| - 1 && CheckedAt(p, s, run[..|run| - 1], i, t)
    requires InProgress(Run(p, s, run), t, run[i].manifest, run[i].step)
    ensures CheckedAt(p, s, run, i, t)
  {
    var before := run[..|run| - 1];
    assert before[..i] == run[..i] && before[i] == run[i];
    forall k | i < k <= |run| ensures InProgress(Run(p, s, run[..k]), t, run[i].manifest, run[i].step) {
      if k == |run| { assert run[..k] == run; } else { assert before[..k] == run[..k]; }
    }
  }

  lemma JustChecked(p: Policy, s: State, run: seq<Action>, t: int)
    requires run != [] && run[|run| - 1].CheckStep? && run[|run| - 1].t == t
    requires Passes(p, Run(p, s, run[..|run| - 1]), run[|run| - 1])
    ensures CheckedAt(p, s, run, |run| - 1, t)
  {
    assert run[..|run|] == run;
  }

  /** Every step in progress was checked by an earlier action of the run, and nothing has touched it since. */
  lemma {:induction false} StepWasChecked(p: Policy, s: State, run: seq<Action>, t: int, m: Manifest, x: PlanStep)
    requires s.calls == map[] && InProgress(Run(p, s, run), t, m, x)
    ensures exists i :: 0 <= i < |run| && CheckedAt(p, s, run, i, t) && run[i].manifest == m && run[i].step == x
  {
    if run != [] {
      var last := |run| - 1;
      var before := run[..last];
      StepComesFrom(p, Run(p, s, before), run[last], t, m, x);
      if InProgress(Run(p, s, before), t, m, x) {
        StepWasChecked(p, s, before, t, m, x);
        var i :| 0 <= i < |before| && CheckedAt(p, s, before, i, t) && before[i].manifest == m && before[i].step == x;
        CheckedLater(p, s, run, i, t);
      } else {
        JustChecked(p, s, run, t);
      }
    }
  }

  /******* No other step commits in between *******/

  /** The history that step checks read, and the counters that guard it. */
  predicate SameHistory(s: State, later: State) {
    later.stepCount == s.stepCount && later.seenSteps == s.seenSteps
    && later.fragments == s.fragments && later.chars == s.chars
  }

  lemma RunExtends(p: Policy, s: State, run: seq<Action>, k: nat)
    requires k < |run|
    ensures Run(p, s, run[..k + 1]) == Apply(p, Run(p, s, run[..k]), run[k]).0
  {
    assert run[..k + 1][..k] == run[..k];
  }

  /** No step is authorised from the `i`th action on and before the `j`th. */
  ghost predicate NoStepBetween(p: Policy, s: State, run: seq<Action>, i: nat, j: nat)
    requires i <= j <= |run|
  {
    forall k :: i <= k < j ==> !OutcomeAt(p, s, run, k).StepAuthorized?
  }

  ghost predicate CountTells(p: Policy, s: State, run: seq<Action>, i: nat, j: nat)
    requires i <= j <= |run|
  {
    var here, later := Run(p, s, run[..i]), Run(p, s, run[..j]);
    here.stepCount <= later.stepCount
    && (here.stepCount == later.stepCount ==> SameHistory(here, later) && NoStepBetween(p, s, run, i, j))
  }

  lemma ActionCounts(p: Policy, s: State, a: Action)
    ensures var (after, o) := Apply(p, s, a);
            && after.stepCount == s.stepCount + (if o.StepAuthorized? then 1 else 0)
            && (!o.StepAuthorized? ==> SameHistory(s, after))
  {
  }

  lemma CountTellsOneMore(p: Policy, s: State, run: seq<Action>, i: nat, j: nat)
    requires i <= j < |run| && CountTells(p, s, run, i, j)
    ensures CountTells(p, s, run, i, j + 1)
  {
    RunExtends(p, s, run, j);
    ActionCounts(p, Run(p, s, run[..j]), run[j]);
  }

  /** The step count tells whether a step was authorised in between. */
  lemma {:induction false} CountTellsHistory(p: Policy, s: State, run: seq<Action>, i: nat, j: nat)
    requires i <= j <= |run|
    ensures CountTells(p, s, run, i, j)
    decreases j
  {
    if i < j {
      CountTellsHistory(p, s, run, i, j - 1);
      CountTellsOneMore(p, s, run, i, j - 1);
    }
  }

  /** Action `j` authorises the step that action `i` checked. */
  ghost predicate Commits(p: Policy, s: State, run: seq<Action>, i: nat, j: nat)
    requires i < j < |run|
  {
    CheckedAt(p, s, run[..j], i, run[j].t) && run[j].Commit? && OutcomeAt(p, s, run, j) == StepAuthorized(run[i].step)
  }

  lemma CommitHasCheck(p: Policy, m: Manifest, run: seq<Action>, j: nat)
    requires j < |run| && OutcomeAt(p, NewState(m), run, j).StepAuthorized?
    ensures exists i :: 0 <= i < j && Commits(p, NewState(m), run, i, j)
  {
    var s := Run(p, NewState(m), run[..j]);
    var c := s.calls[run[j].t];
    StepWasChecked(p, NewState(m), run[..j], run[j].t, c.manifest, c.step);
    var i :| 0 <= i < |run[..j]| && CheckedAt(p, NewState(m), run[..j], i, run[j].t) && run[..j][i].step == c.step;
    assert Commits(p, NewState(m), run, i, j);
  }

  lemma SameHistoryAtCommit(p: Policy, s: State, run: seq<Action>, i: nat, j: nat)
    requires i < j < |run| && Commits(p, s, run, i, j)
    ensures SameHistory(Run(p, s, run[..i]), Run(p, s, run[..j]))
    ensures NoStepBetween(p, s, run, i, j)
  {
    assert run[..j][..i] == run[..i] && run[..j][..j] == run[..j];
    CountTellsHistory(p, s, run, i, j);
  }

  /**
   Every authorised step had one check, whose step and thread nothing has touched since, and the drift history,
   counters and ids that this check read are those the step is committed on: no other step is authorised in between.
   */
  lemma HistoryAtCommitIsChecked(p: Policy, m: Manifest, run: seq<Action>, j: nat)
    requires j < |run| && OutcomeAt(p, NewState(m), run, j).StepAuthorized?
    ensures exists i :: 0 <= i < j && Commits(p, NewState(m), run, i, j)
              && SameHistory(Run(p, NewState(m), run[..i]), Run(p, NewState(m), run[..j]))
  {
    CommitHasCheck(p, m, run, j);
    var i :| 0 <= i < j && Commits(p, NewState(m), run, i, j);
    SameHistoryAtCommit(p, NewState(m), run, i, j);
  }

  /******* The actor of a step *******/

  /** Action `k` commits a mutation whose manifest does not allow `d` as a delegate. */
  ghost predicate Drops(p: Policy, s: State, run: seq<Action>, k: nat, d: Identity)
    requires k < |run|
  {
    var o := OutcomeAt(p, s, run, k); o.MutationAuthorized? && d !in o.updated.goal.delegates
  }

  /** From the `i`th action on and before the `j`th no mutation drops `d`. */
  ghost predicate KeptBetween(p: Policy, s: State, run: seq<Action>, i: nat, j: nat, d: Identity)
    requires i <= j <= |run|
  {
    forall k :: i <= k < j ==> !Drops(p, s, run, k, d)
  }

  ghost predicate ActiveAt(p: Policy, s: State, run: seq<Action>, n: nat, d: Identity)
    requires n <= |run|
  {
    d in Run(p, s, run[..n]).delegates
  }

  lemma ActionKeepsDelegate(p: Policy, s: State, a: Action, d: Identity)
    requires !Apply(p, s, a).1.StepAuthorized?
    ensures var (after, o) := Apply(p, s, a);
            d in after.delegates <==> d in s.delegates && !(o.MutationAuthorized? && d !in o.updated.goal.delegates)
  {
  }

  lemma ActiveOneMore(p: Policy, s: State, run: seq<Action>, k: nat, d: Identity)
    requires k < |run| && !OutcomeAt(p, s, run, k).StepAuthorized?
    ensures ActiveAt(p, s, run, k + 1, d) <==> ActiveAt(p, s, run, k, d) && !Drops(p, s, run, k, d)
  {
    RunExtends(p, s, run, k);
    ActionKeepsDelegate(p, Run(p, s, run[..k]), run[k], d);
  }

  /** While no step is authorised, a delegate stays active exactly as long as no mutation drops it. */
  lemma {:induction false} ActiveUntilDropped(p: Policy, s: State, run: seq<Action>, i: nat, j: nat, d: Identity)
    requires i <= j <= |run| && NoStepBetween(p, s, run, i, j)
    ensures ActiveAt(p, s, run, j, d) <==> ActiveAt(p, s, run, i, d) && KeptBetween(p, s, run, i, j, d)
    decreases j
  {
    if i < j {
      ActiveUntilDropped(p, s, run, i, j - 1, d);
      ActiveOneMore(p, s, run, j - 1, d);
    }
  }

  /**
   The commit of a step does not look at its actor again. The actor may still act at that moment if and only if
   it is the primary identity or no mutation committed since the check drops it.
   */
  lemma ActorStillActiveIff(p: Policy, s: State, run: seq<Action>, i: nat, j: nat)
    requires i < j < |run| && Commits(p, s, run, i, j)
    ensures var x := run[i].step;
            ActorOk(Run(p, s, run[..j]), run[i].manifest, x.actor) <==>
            x.actor == run[i].manifest.binding.primary || KeptBetween(p, s, run, i + 1, j, x.actor)
  {
    var d := run[i].step.actor;
    SameHistoryAtCommit(p, s, run, i, j);
    ActiveUntilDropped(p, s, run, i, j, d);
    assert run[..j][..i] == run[..i];
    CheckDropsNothing(p, s, run, i, d);
  }

  lemma CheckDropsNothing(p: Policy, s: State, run: seq<Action>, i: nat, d: Identity)
    requires i < |run| && run[i].CheckStep?
    ensures !Drops(p, s, run, i, d)
  {
  }

  /** The race: a step whose actor a mutation drops between check and commit is authorised all the same. */
  lemma FormerDelegateCommits(p: Policy, s: State, m: Manifest, x: PlanStep, y: Mutation, now: int, t: int, u: int)
    requires t != u && t !in s.calls && u !in s.calls && ManifestOk(s, m, true, now) && StepOk(p, s, m, x)
    requires x.delegatedTo.None? && x.actor != m.binding.primary
    requires y.intended && y.expected == DigestOf(m) && ActorOk(s, m, y.actor) && StructureOk(m, y)
    requires y.delegates.Some? && x.actor in m.goal.delegates && x.actor !in y.delegates.value
    requires s.mutationCount < p.maxMutations && ApprovalOk(s, m, y, now) && m.revision < MAX_REVISION
    ensures var s1 := Apply(p, s, CheckStep(t, m, true, x, now)).0;
            var s2 := Apply(p, s1, CheckMutation(u, m, true, y, now)).0;
            var s3 := Apply(p, s2, CountMutations(u)).0;
            var s4 := Apply(p, s3, Commit(u)).0;
            && Apply(p, s4, Commit(t)).1 == StepAuthorized(x)
            && !ActorOk(s4, UpdatedManifest(m, y, now), x.actor)
  {
    assert UpdatedGoal(m.goal, y).delegates == y.delegates.value;
    var s1 := Apply(p, s, CheckStep(t, m, true, x, now)).0;
    assert s1.calls[t] == StepChecked(m, x);
    var s2 := Apply(p, s1, CheckMutation(u, m, true, y, now)).0;
    assert s2.calls[u] == MutationChecked(m, y, now) && s2.calls[t] == StepChecked(m, x);
    var s3 := Apply(p, s2, CountMutations(u)).0;
    assert s3.calls[u] == MutationCounted(m, y, now) && s3.calls[t] == StepChecked(m, x);
    var s4 := Apply(p, s3, Commit(u)).0;
    assert s4.calls[t] == StepChecked(m, x) && StateStepOk(p, s4, x);
  }

  /** The step that action `i` authorises comes from somebody who may no longer act. */
  ghost predicate AuthorizesFormer(p: Policy, s: State, run: seq<Action>, i: nat)
    requires i < |run|
  {
    var o, here := OutcomeAt(p, s, run, i), Run(p, s, run[..i]);
    o.StepAuthorized? && o.step.actor != here.digest.binding.primary && o.step.actor !in here.delegates
  }

  function RaceSteps(m: Manifest, x: PlanStep, y: Mutation, now: int, t: int, u: int): seq<Action> {
    [CheckStep(t, m, true, x, now), CheckMutation(u, m, true, y, now), CountMutations(u), Commit(u)]
  }

  lemma RunFour(p: Policy, s: State, run: seq<Action>, a: Action, b: Action, c: Action, d: Action)
    ensures Run(p, s, run + [a, b, c, d])
            == Apply(p, Apply(p, Apply(p, Apply(p, Run(p, s, run), a).0, b).0, c).0, d).0
  {
    RunAppends(p, s, run, a);
    RunAppends(p, s, run + [a], b);
    RunAppends(p, s, run + [a] + [b], c);
    RunAppends(p, s, run + [a] + [b] + [c], d);
    assert run + [a, b, c, d] == run + [a] + [b] + [c] + [d];
  }

  /** The race after any run that leaves its conditions. */
  lemma FormerAfter(p: Policy, s: State, run: seq<Action>, m: Manifest, x: PlanStep, y: Mutation, now: int, t: int, u: int)
    requires t != u && t !in Run(p, s, run).calls && u !in Run(p, s, run).calls
    requires ManifestOk(Run(p, s, run), m, true, now) && StepOk(p, Run(p, s, run), m, x)
    requires x.delegatedTo.None? && x.actor != m.binding.primary
    requires y.intended && y.expected == DigestOf(m) && ActorOk(Run(p, s, run), m, y.actor) && StructureOk(m, y)
    requires y.delegates.Some? && x.actor in m.goal.delegates && x.actor !in y.delegates.value
    requires Run(p, s, run).mutationCount < p.maxMutations && ApprovalOk(Run(p, s, run), m, y, now) && m.revision < MAX_REVISION
    ensures AuthorizesFormer(p, s, run + RaceSteps(m, x, y, now, t, u) + [Commit(t)], |run| + 4)
  {
    FormerDelegateCommits(p, Run(p, s, run), m, x, y, now, t, u);
    RunFour(p, s, run, CheckStep(t, m, true, x, now), CheckMutation(u, m, true, y, now), CountMutations(u), Commit(u));
    var before := run + RaceSteps(m, x, y, now, t, u);
    assert (before + [Commit(t)])[..|run| + 4] == before;
    assert Run(p, s, before).digest.binding == m.binding;
  }

  /** A delegate is established by a first step; its own step is then checked, a mutation drops it, and it commits. */
  lemma FormerDelegateIsReachable()
    ensures exists p, m, run, i :: 0 <= i < |run| && AuthorizesFormer(p, NewState(m), run, i)
  {
    var goal := Goal(0, [], {5}, {2});
    assert ConstraintIds(goal) == {};
    var m := Manifest(Binding(0, 0, 0, 0, 0, 1, {9}, 100, 100), goal, 0, 1, None, GoalDigestOf(goal));
    var first := PlanStep(0, 1, 1, DigestOf(m), {}, 5, Some(2), "x", "x", true, true);
    var x := PlanStep(1, 2, 2, DigestOf(m), {}, 5, None, "y", "y", true, true);
    var y := Mutation(1, DigestOf(m), None, None, None, Some({}), Some(Approval(0, 9, 100, true, true)), true);
    var p := Policy(2, 1, 1, 1, true);
    var s := NewState(m);
    var none: seq<Action> := [];
    RunAppends(p, s, none, CheckStep(0, m, true, first, 0));
    var run := none + [CheckStep(0, m, true, first, 0)];
    RunAppends(p, s, run, Commit(0));
    FormerAfter(p, s, run + [Commit(0)], m, x, y, 0, 0, 1);
  }

  /******* Reads in the middle of a commit *******/

  /** The state a reader without the lock may see while the step is being committed: counted, not yet remembered. */
  function HalfCommitted(s: State, x: PlanStep): State {
    s.(stepCount := s.stepCount + 1, seenSteps := s.seenSteps + {x.id})
  }

  /**
   A check that reads in the middle of a commit passes exactly the counter tests that the next commit repeats,
   but sees the history without the step being committed, whose fragment is kept whenever there is room for it.
   */
  lemma HalfCommittedHidesFragment(p: Policy, s: State, x: PlanStep, next: PlanStep)
    ensures StateStepOk(p, HalfCommitted(s, x), next) <==> StateStepOk(p, CommitStep(p, s, x), next)
    ensures HalfCommitted(s, x).fragments == s.fragments
    ensures Total(s.fragments) + |x.fragment| <= p.maxDriftChars ==>
              CommitStep(p, s, x).fragments == s.fragments + [x.fragment]
  {
    TotalAppends(s.fragments, [x.fragment]);
  }
}
