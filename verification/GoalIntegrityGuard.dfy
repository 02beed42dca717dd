/** The goal-integrity guard and the mutable execution state it works on, proved against GoalModel. */
module GoalIntegrity {
  import opened Wrappers
  import opened GoalModel
  import opened GoalInvariants

  class GoalExecutionState {
    var digest: Digest
    var delegates: set<Identity>
    var stepCount: nat
    var mutationCount: nat
    var seenSteps: set<int>
    var usedApprovals: set<int>
    var fragments: seq<string>
    var chars: nat

    /** The state between calls: nothing is in progress. */
    function View(): State
      reads this
    {
      State(digest, delegates, stepCount, mutationCount, seenSteps, usedApprovals, fragments, chars, map[])
    }

    constructor (m: Manifest)
      ensures View() == NewState(m)
    {
      digest := DigestOf(m);
      delegates, stepCount, mutationCount := {}, 0, 0;
      seenSteps, usedApprovals, fragments, chars := {}, {}, [], 0;
    }
  }

  class GoalIntegrityGuard {
    const policy: Policy

    constructor (policy: Policy)
      ensures this.policy == policy
    {
      this.policy := policy;
    }

    /** Append to the drift history and drop the oldest fragments while it is too long. */
    method RememberStep(s: GoalExecutionState, fragment: string)
      requires s.chars == Total(s.fragments)
      modifies s`fragments, s`chars
      ensures s.fragments == Trim(old(s.fragments) + [fragment], policy.maxDriftChars)
      ensures s.chars == Total(s.fragments)
    {
      TotalAppends(s.fragments, [fragment]);
      s.fragments := s.fragments + [fragment];
      s.chars := s.chars + |fragment|;
      while s.fragments != [] && s.chars > policy.maxDriftChars
        invariant s.chars == Total(s.fragments)
        invariant Trim(s.fragments, policy.maxDriftChars) == Trim(old(s.fragments) + [fragment], policy.maxDriftChars)
        decreases |s.fragments|
      {
        var removed := s.fragments[0];
        s.fragments := s.fragments[1..];
        s.chars := s.chars - |removed|;
      }
    }

    /** A step checked and committed with no other call in between. */
    method ValidateStep(s: GoalExecutionState, m: Manifest, intact: bool, x: PlanStep, now: int) returns (outcome: Outcome)
      requires s.chars == Total(s.fragments)
      modifies s
      ensures var checked := Apply(policy, old(s.View()), CheckStep(0, m, intact, x, now)).0;
              (s.View(), outcome) == Apply(policy, checked, Commit(0))
      ensures s.chars == Total(s.fragments)
    {
      if !ManifestOk(s.View(), m, intact, now) || !StepOk(policy, s.View(), m, x) {
        return Nothing;
      }
      ghost var before := s.View();
      assert map[0 := StepChecked(m, x)] - {0} == map[];
      s.stepCount := s.stepCount + 1;
      s.seenSteps := s.seenSteps + {x.id};
      RememberStep(s, x.fragment);
      if x.delegatedTo.Some? {
        s.delegates := s.delegates + {x.delegatedTo.value};
      }
      assert s.View() == CommitStep(policy, before, x);
      return StepAuthorized(x);
    }

    /** A mutation checked, counted and committed with no other call in between. */
    method ValidateMutation(s: GoalExecutionState, m: Manifest, intact: bool, x: Mutation, now: int)
      returns (outcome: Outcome)
      modifies s
      ensures var (checked, early) := Apply(policy, old(s.View()), CheckMutation(0, m, intact, x, now));
              var counted := Apply(policy, checked, CountMutations(0)).0;
              var (after, late) := Apply(policy, counted, Commit(0));
              s.View() == after && outcome == if early.Unchanged? then early else late
    {
      if !ManifestOk(s.View(), m, intact, now) || !x.intended || x.expected != DigestOf(m)
         || !ActorOk(s.View(), m, x.actor) || !StructureOk(m, x) {
        return Nothing;
      }
      if !Material(m, x) {
        return Unchanged(m);
      }
      assert map[0 := MutationChecked(m, x, now)] - {0} == map[];
      if s.mutationCount >= policy.maxMutations || !ApprovalOk(s.View(), m, x, now) {
        return Nothing;
      }
      assert map[0 := MutationChecked(m, x, now)][0 := MutationCounted(m, x, now)] - {0} == map[];
      if m.revision >= MAX_REVISION {
        return Nothing;
      }
      var updated := UpdatedManifest(m, x, now);
      s.digest := DigestOf(updated);
      s.mutationCount := s.mutationCount + 1;
      s.usedApprovals := s.usedApprovals + {x.approval.value.id};
      s.delegates := s.delegates * updated.goal.delegates;
      return MutationAuthorized(updated, x.approval.value.id);
    }
  }
}
