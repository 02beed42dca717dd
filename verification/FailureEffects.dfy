/** What the idempotency reservations are for: each key commits once. */
module FailureEffects {
  import opened Wrappers
  import opened FailureModel
  import opened FailureInvariants

  function KeyOf(body: PermitBody): EffectKey
    requires body.key.Some?
  {
    (body.tenant, body.key.value)
  }

  /** Step `i` settles a permit that carries key `e`, and the outcome is accepted. */
  ghost predicate SettlesKey(p: Policy, run: seq<Step>, i: nat, e: EffectKey)
    requires p.Valid() && i < |run|
  {
    RecordedAt(p, run, i) && run[i].permit.body.key.Some? && KeyOf(run[i].permit.body) == e
  }

  /** The accepted outcome also reports the side effect under `e` as committed. */
  ghost predicate CommitsKey(p: Policy, run: seq<Step>, i: nat, e: EffectKey)
    requires p.Valid() && i < |run|
  {
    SettlesKey(p, run, i, e) && run[i].report.committed
  }

  /** The permit is in flight for side effects under `e`. */
  predicate HoldsKey(s: State, id: PermitId, e: EffectKey) {
    id in s.active && e in Reservation(s.active[id])
  }

  /** Whoever holds the key has it reserved, and holds it alone. */
  ghost predicate KeyGuarded(s: State, e: EffectKey) {
    && (forall i :: HoldsKey(s, i, e) ==> e in s.activeEffects)
    && (forall i, j :: HoldsKey(s, i, e) && HoldsKey(s, j, e) ==> i == j)
  }

  /** Step `i` settles, without side effects, a permit that carries `e` while another permit has it reserved. */
  ghost predicate StealsKeyAt(p: Policy, run: seq<Step>, i: nat, e: EffectKey)
    requires p.Valid() && i < |run|
  {
    StealsAt(p, run, i) && KeyOf(run[i].permit.body) == e
  }

  lemma AdmitGuardsKey(p: Policy, s: State, req: Request, now: int, id: PermitId, e: EffectKey)
    requires p.Valid() && KeyGuarded(s, e) && id !in s.active
    ensures KeyGuarded(Authorize(p, s, req, now, id).0, e)
  {
    var (s', d) := Authorize(p, s, req, now, id);
    forall i | HoldsKey(s', i, e) && i != id ensures HoldsKey(s, i, e) {
    }
    if d.Permitted? && HoldsKey(s', id, e) { assert e !in s.activeEffects; }
  }

  lemma SettleGuardsKey(p: Policy, s: State, permit: Permit, report: Report, verified: bool, now: int, e: EffectKey)
    requires p.Valid() && KeyGuarded(s, e) && Acceptable(p, s, permit, report, verified, now)
    requires StealsReservation(s, permit.body) ==> KeyOf(permit.body) != e
    ensures KeyGuarded(RecordOutcome(p, s, permit, report, verified, now).0, e)
  {
    var s' := RecordOutcome(p, s, permit, report, verified, now).0;
    if permit.body.key.Some? && KeyOf(permit.body) == e && e in s.activeEffects {
      assert HoldsKey(s, permit.body.id, e);
    }
    forall i | HoldsKey(s', i, e) ensures HoldsKey(s, i, e) {
    }
  }

  lemma StepGuardsKey(p: Policy, run: seq<Step>, i: nat, e: EffectKey)
    requires p.Valid() && FreshIds(run) && i < |run| && !StealsKeyAt(p, run, i, e)
    requires KeyGuarded(Run(p, Initial, run[..i]), e)
    ensures KeyGuarded(Run(p, Initial, run[..i + 1]), e)
  {
    RunUnfolds(p, Initial, run, i);
    var s := Run(p, Initial, run[..i]);
    match run[i]
    case Admit(req, now, id) =>
      assert run[..i + 1][..i] == run[..i];
      FreshAtEnd(p, run[..i + 1]);
      AdmitGuardsKey(p, s, req, now, id, e);
    case Settle(permit, report, verified, now) =>
      if Acceptable(p, s, permit, report, verified, now) {
        SettleGuardsKey(p, s, permit, report, verified, now, e);
      }
  }

  /** Until an outcome steals it, a key is reserved for its only holder. */
  lemma {:induction false} KeyGuardedUntilStolen(p: Policy, run: seq<Step>, n: nat, e: EffectKey)
    requires p.Valid() && FreshIds(run) && n <= |run|
    requires forall i :: 0 <= i < n ==> !StealsKeyAt(p, run, i, e)
    ensures KeyGuarded(Run(p, Initial, run[..n]), e)
  {
    if n > 0 {
      KeyGuardedUntilStolen(p, run, n - 1, e);
      StepGuardsKey(p, run, n - 1, e);
    }
  }

  lemma CommitCommits(p: Policy, run: seq<Step>, i: nat, e: EffectKey)
    requires p.Valid() && i < |run| && CommitsKey(p, run, i, e)
    ensures e in Run(p, Initial, run[..i + 1]).committedEffects
  {
    RunUnfolds(p, Initial, run, i);
  }

  /** A holder at a later moment was a holder already: a committed key is granted to nobody new. */
  lemma {:induction false} HolderIsOld(p: Policy, run: seq<Step>, n: nat, m: nat, id: PermitId, e: EffectKey)
    requires p.Valid() && n <= m <= |run|
    requires e in Run(p, Initial, run[..n]).committedEffects
    requires HoldsKey(Run(p, Initial, run[..m]), id, e)
    ensures HoldsKey(Run(p, Initial, run[..n]), id, e)
    decreases m
  {
    if n < m {
      CommittedNeverAuthorisesAgain(p, run, n, m - 1, e);
      RunUnfolds(p, Initial, run, m - 1);
      HoldersComeFrom(p, Run(p, Initial, run[..m - 1]), run[m - 1], id, e);
      HolderIsOld(p, run, n, m - 1, id, e);
    }
  }

  lemma HoldersComeFrom(p: Policy, s: State, step: Step, id: PermitId, e: EffectKey)
    requires p.Valid() && e in s.committedEffects && HoldsKey(Apply(p, s, step).0, id, e)
    ensures HoldsKey(s, id, e)
  {
  }

  /** After a key has been committed somebody still holds it only if an outcome up to then has stolen it. */
  lemma HolderAfterCommitNeedsTheft(p: Policy, run: seq<Step>, i: nat, m: nat, id: PermitId, e: EffectKey)
    requires p.Valid() && FreshIds(run) && i < m <= |run| && CommitsKey(p, run, i, e)
    requires HoldsKey(Run(p, Initial, run[..m]), id, e)
    ensures exists k :: 0 <= k <= i && StealsKeyAt(p, run, k, e)
  {
    CommitCommits(p, run, i, e);
    HolderIsOld(p, run, i + 1, m, id, e);
    if forall k :: 0 <= k < i + 1 ==> !StealsKeyAt(p, run, k, e) {
      KeyGuardedUntilStolen(p, run, i + 1, e);
      CommittedNeverReserved(p, run[..i + 1]);
      assert false;
    }
  }

  /** Step `j` settles a permit issued for side effects. */
  ghost predicate SettlesSideEffect(p: Policy, run: seq<Step>, j: nat)
    requires p.Valid() && j < |run| && run[j].Settle?
  {
    var s := Run(p, Initial, run[..j]); run[j].permit.body.id in s.active && s.active[run[j].permit.body.id].sideEffecting
  }

  lemma SettledHeld(p: Policy, run: seq<Step>, j: nat, e: EffectKey)
    requires p.Valid() && j < |run| && SettlesKey(p, run, j, e) && SettlesSideEffect(p, run, j)
    ensures HoldsKey(Run(p, Initial, run[..j]), run[j].permit.body.id, e)
  {
  }

  /**
   A side effect is committed again under a key already committed only if, no later than the first commit,
   an outcome stole the reservation of that very key.
   */
  lemma SecondCommitNeedsTheft(p: Policy, run: seq<Step>, i: nat, j: nat, e: EffectKey)
    requires p.Valid() && FreshIds(run) && i < j < |run|
    requires CommitsKey(p, run, i, e) && CommitsKey(p, run, j, e) && SettlesSideEffect(p, run, j)
    ensures exists k :: 0 <= k <= i && StealsKeyAt(p, run, k, e)
  {
    SettledHeld(p, run, j, e);
    HolderAfterCommitNeedsTheft(p, run, i, j, run[j].permit.body.id, e);
  }

  lemma KeyedSettlesSideEffect(p: Policy, run: seq<Step>, j: nat, e: EffectKey)
    requires p.Valid() && FreshIds(run) && j < |run| && SettlesKey(p, run, j, e)
    requires forall n :: 0 <= n < |run| ==> KeyedOnlyIfSideEffecting(run[n])
    ensures SettlesSideEffect(p, run, j) && !StealsAt(p, run, j)
  {
    var before := run[..j];
    forall n | 0 <= n < |before| ensures KeyedOnlyIfSideEffecting(before[n]) {
      assert before[n] == run[n];
    }
    assert FreshIds(before);
    ReachableReservationsExact(p, before);
  }

  /** When only side-effecting requests carry keys, no two accepted outcomes of a run commit the same key. */
  lemma KeyCommittedOnce(p: Policy, run: seq<Step>, i: nat, j: nat, e: EffectKey)
    requires p.Valid() && FreshIds(run) && i < j < |run|
    requires forall n :: 0 <= n < |run| ==> KeyedOnlyIfSideEffecting(run[n])
    ensures !(CommitsKey(p, run, i, e) && CommitsKey(p, run, j, e))
  {
    if CommitsKey(p, run, i, e) && CommitsKey(p, run, j, e) {
      KeyedSettlesSideEffect(p, run, j, e);
      SecondCommitNeedsTheft(p, run, i, j, e);
      var k :| 0 <= k <= i && StealsKeyAt(p, run, k, e);
      KeyedSettlesSideEffect(p, run, k, e);
    }
  }
}
