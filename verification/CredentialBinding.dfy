/** For whom a capability is issued and used: which executions, which references, which versions. */
module CredentialBinding {
  import opened Wrappers
  import opened CredentialModel
  import opened CredentialInvariants
  import opened CredentialMaterial

  /******* What a call was admitted for *******/

  /** The execution is the one meant, authentic, and running at this time. */
  predicate Running(x: Execution, now: int) {
    x.matches && x.verified && x.issuedAt <= now && now < x.expiresAt
  }

  /** Presented intact within its lifetime, by the very execution it is bound to. */
  predicate PresentedBy(c: Capability, x: Execution, intact: bool, now: int) {
    && intact && x.digest == c.execution && Running(x, now)
    && c.issuedAt <= now && now < c.expiresAt
  }

  /** The tables say that the reference is in use at this version. */
  predicate InUse(s: State, r: Reference, v: Version) {
    r in s.versions && s.versions[r] == v && !(r in s.withdrawn)
  }

  /** The lifetime asked for, or the binding's own when none is. */
  predicate LifetimeOf(b: Binding, ttl: Option<int>, lifetime: int) {
    lifetime == if ttl == None || ttl == Some(0) then b.maxTtl else ttl.value
  }

  /** `c` is what the binding allows this execution at this time, apart from its id. */
  predicate DraftedFor(p: Policy, s: State, c: Capability, r: Reference, x: Execution, ttl: Option<int>, now: int) {
    && c.reference == r && c.execution == x.digest && Running(x, now)
    && r in p.bindings && p.bindings[r].active
    && InUse(s, r, c.version)
    && c.issuedAt == now
    && exists lifetime :: LifetimeOf(p.bindings[r], ttl, lifetime)
         && 1 <= lifetime && lifetime <= p.bindings[r].maxTtl
         && c.expiresAt <= now + lifetime && c.expiresAt <= x.expiresAt
         && (c.expiresAt == now + lifetime || c.expiresAt == x.expiresAt)
  }

  lemma LifetimeMeans(b: Binding, ttl: Option<int>)
    ensures LifetimeOf(b, ttl, Lifetime(b, ttl))
    ensures forall lifetime :: LifetimeOf(b, ttl, lifetime) ==> lifetime == Lifetime(b, ttl)
  {
  }

  /** A resolution begins exactly when its thread is free and the capability is presented properly and in use. */
  lemma ResolutionBeginsIff(p: Policy, s: State, t: int, c: Capability, x: Execution, intact: bool, now: int)
    ensures var after := Apply(p, s, StartResolve(t, c, x, intact, now)).0;
            if t !in s.calls && PresentedBy(c, x, intact, now) && InUse(s, c.reference, c.version)
            then after == s.(calls := s.calls[t := Resolving(c, now)]) else after == s
  {
  }

  /** An issue begins exactly when its thread is free and the binding allows some capability, which it drafts. */
  lemma IssueBeginsIff(p: Policy, s: State, t: int, r: Reference, x: Execution, ttl: Option<int>, now: int)
    ensures var after := Apply(p, s, StartIssue(t, r, x, ttl, now)).0;
            && (after != s <==> t !in s.calls && exists c :: DraftedFor(p, s, c, r, x, ttl, now))
            && (after != s ==>
                  && t in after.calls && after.calls[t].Issuing?
                  && DraftedFor(p, s, after.calls[t].draft, r, x, ttl, now)
                  && after == s.(calls := s.calls[t := Issuing(after.calls[t].draft)]))
  {
    var after := Apply(p, s, StartIssue(t, r, x, ttl, now)).0;
    if r in p.bindings { LifetimeMeans(p.bindings[r], ttl); }
    if after != s {
      assert after.calls[t].Issuing?;
      assert DraftedFor(p, s, after.calls[t].draft, r, x, ttl, now);
    }
    if c :| t !in s.calls && DraftedFor(p, s, c, r, x, ttl, now) {
      assert t in after.calls;
    }
  }

  /******* Every use was presented *******/

  predicate Resolves(s: State, t: int, c: Capability) {
    t in s.calls && s.calls[t].Resolving? && s.calls[t].capability == c
  }

  predicate Drafts(s: State, t: int, c: Capability) {
    t in s.calls && s.calls[t] == Issuing(c)
  }

  /** Step `i` of thread `t` presented `c` properly while it was in use. */
  ghost predicate PresentedAt(p: Policy, s: State, run: seq<Step>, i: nat, t: int, c: Capability)
    requires i < |run|
  {
    && run[i].StartResolve? && run[i].t == t && run[i].capability == c
    && PresentedBy(c, run[i].execution, run[i].intact, run[i].now)
    && InUse(Run(p, s, run[..i]), c.reference, c.version)
  }

  /** Step `i` of thread `t` drafted `c` for an execution the binding allows it. */
  ghost predicate DraftedAt(p: Policy, s: State, run: seq<Step>, i: nat, t: int, c: Capability)
    requires i < |run|
  {
    && run[i].StartIssue? && run[i].t == t
    && DraftedFor(p, Run(p, s, run[..i]), c, run[i].reference, run[i].execution, run[i].ttl, run[i].now)
  }

  lemma ResolvesComesFrom(p: Policy, s: State, step: Step, t: int, c: Capability)
    requires Resolves(Apply(p, s, step).0, t, c)
    ensures || Resolves(s, t, c)
            || (step.StartResolve? && step.t == t && step.capability == c
                && PresentedBy(c, step.execution, step.intact, step.now) && InUse(s, c.reference, c.version))
  {
    if step.StartResolve? { ResolutionBeginsIff(p, s, step.t, step.capability, step.execution, step.intact, step.now); }
  }

  lemma DraftsComesFrom(p: Policy, s: State, step: Step, t: int, c: Capability)
    requires Drafts(Apply(p, s, step).0, t, c)
    ensures || Drafts(s, t, c)
            || (step.StartIssue? && step.t == t
                && DraftedFor(p, s, c, step.reference, step.execution, step.ttl, step.now))
  {
    if step.StartIssue? { IssueBeginsIff(p, s, step.t, step.reference, step.execution, step.ttl, step.now); }
  }

  lemma {:induction false} ResolvesWasPresented(p: Policy, s: State, run: seq<Step>, t: int, c: Capability)
    requires s.calls == map[] && Resolves(Run(p, s, run), t, c)
    ensures exists i :: 0 <= i < |run| && PresentedAt(p, s, run, i, t, c)
  {
    if run != [] {
      var before, last := run[..|run| - 1], |run| - 1;
      ResolvesComesFrom(p, Run(p, s, before), run[last], t, c);
      if Resolves(Run(p, s, before), t, c) {
        ResolvesWasPresented(p, s, before, t, c);
        var i :| 0 <= i < |before| && PresentedAt(p, s, before, i, t, c);
        assert before[..i] == run[..i] && before[i] == run[i];
        assert PresentedAt(p, s, run, i, t, c);
      } else {
        assert PresentedAt(p, s, run, last, t, c);
      }
    }
  }

  lemma {:induction false} DraftsWasDrafted(p: Policy, s: State, run: seq<Step>, t: int, c: Capability)
    requires s.calls == map[] && Drafts(Run(p, s, run), t, c)
    ensures exists i :: 0 <= i < |run| && DraftedAt(p, s, run, i, t, c)
  {
    if run != [] {
      var before, last := run[..|run| - 1], |run| - 1;
      DraftsComesFrom(p, Run(p, s, before), run[last], t, c);
      if Drafts(Run(p, s, before), t, c) {
        DraftsWasDrafted(p, s, before, t, c);
        var i :| 0 <= i < |before| && DraftedAt(p, s, before, i, t, c);
        assert before[..i] == run[..i] && before[i] == run[i];
        assert DraftedAt(p, s, run, i, t, c);
      } else {
        assert DraftedAt(p, s, run, last, t, c);
      }
    }
  }

  /******* The store as history *******/

  /** Step `n` issues this capability. */
  ghost predicate IssuedAt(p: Policy, s: State, run: seq<Step>, n: nat, c: Capability)
    requires n < |run|
  {
    run[n].FinishIssue? && OutcomeAt(p, s, run, n) == Issued(c)
  }

  /** One of the first `n` steps issued `c`, and none since used it up or withdrew its reference from the store. */
  ghost predicate Outstanding(p: Policy, s: State, run: seq<Step>, n: nat, c: Capability)
    requires n <= |run|
  {
    n > 0 &&
    (|| IssuedAt(p, s, run, n - 1, c)
     || (Outstanding(p, s, run, n - 1, c)
         && OutcomeAt(p, s, run, n - 1) != UsedUp(c) && !ReachesStore(p, s, run, n - 1, c.reference)))
  }

  predicate StoredAs(items: Items, c: Capability) {
    c.id in items && items[c.id] == Entry(c, Stored)
  }

  predicate StepWithdraws(s: State, step: Step, r: Reference) {
    step.FinishWithdraw? && step.t in s.calls && s.calls[step.t] == Withdrawing(r)
  }

  lemma StepStores(p: Policy, s: State, step: Step, c: Capability)
    requires StateOk(p, s)
    ensures var (after, o) := Apply(p, s, step);
            StoredAs(after.items, c) <==>
              || (step.FinishIssue? && o == Issued(c))
              || (StoredAs(s.items, c) && o != UsedUp(c) && !StepWithdraws(s, step, c.reference))
  {
  }

  ghost predicate StoredAt(p: Policy, s: State, run: seq<Step>, n: nat, c: Capability)
    requires n <= |run|
  {
    StoredAs(Run(p, s, run[..n]).items, c)
  }

  lemma StoredOneMore(p: Policy, s: State, run: seq<Step>, n: nat, c: Capability)
    requires StateOk(p, s) && n < |run|
    ensures StoredAt(p, s, run, n + 1, c) <==>
            || IssuedAt(p, s, run, n, c)
            || (StoredAt(p, s, run, n, c) && OutcomeAt(p, s, run, n) != UsedUp(c)
                && !ReachesStore(p, s, run, n, c.reference))
  {
    RunKeepsState(p, s, run[..n]);
    RunExtends(p, s, run, n);
    StepStores(p, Run(p, s, run[..n]), run[n], c);
  }

  /** The store holds as STORED exactly the capabilities issued and neither used up nor withdrawn since. */
  lemma {:induction false} StoredIffOutstanding(p: Policy, versions: map<Reference, Version>, run: seq<Step>, n: nat, c: Capability)
    requires n <= |run|
    ensures StoredAt(p, Initial(versions), run, n, c) <==> Outstanding(p, Initial(versions), run, n, c)
  {
    if n > 0 {
      StoredIffOutstanding(p, versions, run, n - 1, c);
      StoredOneMore(p, Initial(versions), run, n - 1, c);
    }
  }

  /** A registration is a replay exactly when the store holds this very capability, whatever became of it. */
  lemma RegistrationIff(items: Items, limit: nat, c: Capability)
    ensures var (after, result) := Register(items, limit, c);
            && (result == Registered <==> c.id !in items && |items| < limit)
            && (result == Replay <==> exists state :: c.id in items && items[c.id] == Entry(c, state))
            && after == if result == Registered then items[c.id := Entry(c, Stored)] else items
  {
    if c.id in items && items[c.id].capability == c { assert items[c.id] == Entry(c, items[c.id].state); }
  }

  /** What a withdrawal counts is what it changes: the stored capabilities of the reference, which end REVOKED. */
  lemma WithdrawalChangesStored(items: Items, r: Reference)
    ensures var after := RevokeReference(items, r);
            && after.Keys == items.Keys
            && forall i :: i in items ==>
                 && (i in StoredUnder(items, r) <==> after[i] != items[i])
                 && (after[i] != items[i] <==> items[i].state == Stored && items[i].capability.reference == r)
                 && (after[i] != items[i] ==> after[i] == Entry(items[i].capability, Revoked))
  {
  }

  /******* The tables as history *******/

  /** The reference is in use at this version after the first `n` steps: as at the start, or since its last rotation. */
  ghost predicate InUseAfter(p: Policy, versions: map<Reference, Version>, run: seq<Step>, n: nat, r: Reference, v: Version)
    requires n <= |run|
  {
    if n == 0 then r in versions && versions[r] == v
    else
      var step := run[n - 1];
      var begins := step.t !in Run(p, Initial(versions), run[..n - 1]).calls;
      if step.StartRevoke? && step.reference == r && begins then false
      else if step.StartRotate? && step.reference == r && begins && r in p.bindings then step.version == v
      else InUseAfter(p, versions, run, n - 1, r, v)
  }

  lemma StepMovesTables(p: Policy, s: State, step: Step, r: Reference, v: Version)
    ensures InUse(Apply(p, s, step).0, r, v) <==>
            if step.StartRevoke? && step.reference == r && step.t !in s.calls then false
            else if step.StartRotate? && step.reference == r && step.t !in s.calls && r in p.bindings then step.version == v
            else InUse(s, r, v)
  {
  }

  ghost predicate InUseAt(p: Policy, versions: map<Reference, Version>, run: seq<Step>, n: nat, r: Reference, v: Version)
    requires n <= |run|
  {
    InUse(Run(p, Initial(versions), run[..n]), r, v)
  }

  lemma TablesOneMore(p: Policy, versions: map<Reference, Version>, run: seq<Step>, n: nat, r: Reference, v: Version)
    requires n < |run| && (InUseAt(p, versions, run, n, r, v) <==> InUseAfter(p, versions, run, n, r, v))
    ensures InUseAt(p, versions, run, n + 1, r, v) <==> InUseAfter(p, versions, run, n + 1, r, v)
  {
    RunExtends(p, Initial(versions), run, n);
    StepMovesTables(p, Run(p, Initial(versions), run[..n]), run[n], r, v);
  }

  /** A reference is in use at a version exactly when its last rotation, or the start, set it and nothing revoked it since. */
  lemma {:induction false} InUseIffHistory(p: Policy, versions: map<Reference, Version>, run: seq<Step>, n: nat, r: Reference, v: Version)
    requires n <= |run|
    ensures InUseAt(p, versions, run, n, r, v) <==> InUseAfter(p, versions, run, n, r, v)
  {
    if n > 0 {
      InUseIffHistory(p, versions, run, n - 1, r, v);
      TablesOneMore(p, versions, run, n - 1, r, v);
    }
  }

  /******* The decisions *******/

  /**
   A capability is used up exactly by a call that presented it and finds it issued and neither used up nor
   withdrawn since.
   */
  lemma UsedIff(p: Policy, versions: map<Reference, Version>, run: seq<Step>, n: nat, c: Capability)
    requires n < |run| && run[n].Take?
    ensures var s := Initial(versions);
            OutcomeAt(p, s, run, n) == UsedUp(c) <==>
              Resolves(Run(p, s, run[..n]), run[n].t, c) && Outstanding(p, s, run, n, c)
  {
    var s := Initial(versions);
    RunKeepsState(p, s, run[..n]);
    StoredIffOutstanding(p, versions, run, n, c);
  }

  /**
   A capability is issued exactly when its thread has drafted it, the vault holds its version, its id is new to
   the store and there is room.
   */
  lemma IssuedIff(p: Policy, versions: map<Reference, Version>, run: seq<Step>, n: nat, c: Capability)
    requires n < |run| && run[n].FinishIssue?
    ensures var s := Initial(versions);
            var before := Run(p, s, run[..n]);
            OutcomeAt(p, s, run, n) == Issued(c) <==>
              && (exists draft :: Drafts(before, run[n].t, draft) && c == draft.(id := run[n].id))
              && run[n].vaultVersion == Some(c.version)
              && c.id !in before.items && |before.items| < p.limit
  {
    var before := Run(p, Initial(versions), run[..n]);
    if run[n].t in before.calls && before.calls[run[n].t].Issuing? {
      assert Drafts(before, run[n].t, before.calls[run[n].t].draft);
    }
  }

  /** One of the first `n` steps, of some thread, drafted the capability under whatever id. */
  ghost predicate WasDrafted(p: Policy, s: State, run: seq<Step>, n: nat, c: Capability)
    requires n <= |run|
  {
    exists i, t, id :: 0 <= i < n && DraftedAt(p, s, run, i, t, c.(id := id))
  }

  lemma IssuedWasDrafted(p: Policy, versions: map<Reference, Version>, run: seq<Step>, n: nat, c: Capability)
    requires n < |run| && IssuedAt(p, Initial(versions), run, n, c)
    ensures WasDrafted(p, Initial(versions), run, n, c)
  {
    var s := Initial(versions);
    var before := run[..n];
    IssuedIff(p, versions, run, n, c);
    var draft :| Drafts(Run(p, s, before), run[n].t, draft) && c == draft.(id := run[n].id);
    DraftsWasDrafted(p, s, before, run[n].t, draft);
    var i :| 0 <= i < |before| && DraftedAt(p, s, before, i, run[n].t, draft);
    assert before[..i] == run[..i] && before[i] == run[i];
    assert draft == c.(id := draft.id);
    assert DraftedAt(p, s, run, i, run[n].t, c.(id := draft.id));
  }

  lemma {:induction false} OutstandingWasIssued(p: Policy, versions: map<Reference, Version>, run: seq<Step>, n: nat, c: Capability)
    requires n <= |run| && Outstanding(p, Initial(versions), run, n, c)
    ensures exists k :: 0 <= k < n && IssuedAt(p, Initial(versions), run, k, c)
  {
    if !IssuedAt(p, Initial(versions), run, n - 1, c) { OutstandingWasIssued(p, versions, run, n - 1, c); }
  }

  /**
   Whatever is used up was presented by the same thread, intact and in its lifetime, with the very execution it
   is bound to, and had been issued to that execution under an active binding, within the binding's lifetime
   and at the version then in use.
   */
  lemma UsedForItsExecution(p: Policy, versions: map<Reference, Version>, run: seq<Step>, n: nat, c: Capability)
    requires n < |run| && OutcomeAt(p, Initial(versions), run, n) == UsedUp(c)
    ensures var s := Initial(versions);
            && (exists i :: 0 <= i < n && PresentedAt(p, s, run, i, run[n].t, c))
            && (exists k :: 0 <= k < n && IssuedAt(p, s, run, k, c) && WasDrafted(p, s, run, k, c))
  {
    var s := Initial(versions);
    var before := run[..n];
    RunKeepsState(p, s, before);
    UsedWasStored(p, Run(p, s, before), run[n]);
    UsedIff(p, versions, run, n, c);
    ResolvesWasPresented(p, s, before, run[n].t, c);
    var i :| 0 <= i < |before| && PresentedAt(p, s, before, i, run[n].t, c);
    assert before[..i] == run[..i] && before[i] == run[i];
    assert PresentedAt(p, s, run, i, run[n].t, c);
    OutstandingWasIssued(p, versions, run, n, c);
    var k :| 0 <= k < n && IssuedAt(p, s, run, k, c);
    IssuedWasDrafted(p, versions, run, k, c);
  }

  /** So does whatever is handed out: its call used the capability up before, for that execution. */
  lemma HandedOutForItsExecution(p: Policy, versions: map<Reference, Version>, run: seq<Step>, j: nat, c: Capability)
    requires j < |run| && OutcomeAt(p, Initial(versions), run, j) == HandedOut(c)
    ensures var s := Initial(versions);
            && run[j].Fetch? && run[j].vaultVersion == Some(c.version)
            && (exists i :: 0 <= i < j && PresentedAt(p, s, run, i, run[j].t, c))
            && (exists k :: 0 <= k < j && IssuedAt(p, s, run, k, c) && WasDrafted(p, s, run, k, c))
  {
    var s := Initial(versions);
    HandedOutWasUsed(p, s, run, j);
    var n :| 0 <= n < j && UsedAt(p, s, run, n, run[j].t, c);
    UsedForItsExecution(p, versions, run, n, c);
    var i :| 0 <= i < n && PresentedAt(p, s, run, i, run[n].t, c);
    var k :| 0 <= k < n && IssuedAt(p, s, run, k, c) && WasDrafted(p, s, run, k, c);
    assert PresentedAt(p, s, run, i, run[j].t, c);
  }

  /** A resolution with nothing in between hands material out exactly when all of this holds. */
  lemma UninterruptedResolveIff(p: Policy, s: State, t: int, c: Capability, x: Execution, intact: bool, now: int,
                                vaultVersion: Option<Version>)
    requires StateOk(p, s) && t !in s.calls
    ensures var s1 := Apply(p, s, StartResolve(t, c, x, intact, now)).0;
            var s2 := Apply(p, s1, Take(t)).0;
            Apply(p, s2, Fetch(t, vaultVersion)).1 == HandedOut(c) <==>
              && PresentedBy(c, x, intact, now) && InUse(s, c.reference, c.version)
              && StoredAs(s.items, c) && vaultVersion == Some(c.version)
  {
    ResolutionBeginsIff(p, s, t, c, x, intact, now);
  }
}
