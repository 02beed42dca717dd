/** A concrete run of the failure-containment manager in which one idempotency key is granted twice at once. */
module FailureExamples {
  import opened Wrappers
  import opened FailureModel
  import opened FailureInvariants
  import opened FailureRecovery
  import opened FailureEffects

  predicate AllClosed(s: State) {
    forall k :: k in s.circuits ==> s.circuits[k].state == Closed
  }

  /** The permit is in flight with side effects, under this key. */
  predicate Holds(s: State, id: PermitId, e: EffectKey) {
    id in s.active && Reservation(s.active[id]) == {e}
  }

  /** A prompt, free and successful report. */
  function GoodReport(body: PermitBody, id: ReportId, now: int): Report {
    Report(id, body.id, body, Sample(true, 0.0, 0.0, 0), false, now, true)
  }

  function SettleWell(body: PermitBody, report: ReportId, now: int): Step {
    Settle(Permit(body, body), GoodReport(body, report, now), true, now)
  }

  lemma GoodOutcomeStaysClosed(b: Breaker, now: int)
    requires b.Valid()
    ensures AfterOutcome(b, FreshCircuit, Sample(true, 0.0, 0.0, 0), now).state == Closed
  {
    var x := Sample(true, 0.0, 0.0, 0);
    assert FreshCircuit.samples + [x] == [x];
    GoodWindowIsQuiet(b, [x]);
  }

  /** Settling a permit without side effects nevertheless frees the key its request carried. */
  lemma SettlingFreesKey(p: Policy, s: State, body: PermitBody, report: ReportId, now: int)
    requires p.Valid() && AllClosed(s) && body.selected in p.dependencies && body.key.Some?
    requires CircuitAt(s.circuits, (body.tenant, body.selected)) == FreshCircuit
    requires body.id in s.active && s.active[body.id].digest == body
    requires body.issuedAt <= now <= body.expiresAt && report !in s.usedReports
    ensures var (s', d) := Apply(p, s, SettleWell(body, report, now));
            && d.Recorded? && AllClosed(s')
            && s'.active == s.active - {body.id}
            && s'.activeEffects == s.activeEffects - {(body.tenant, body.key.value)}
            && s'.committedEffects == s.committedEffects
            && s'.seenAttempts == s.seenAttempts && s'.attempts == s.attempts
  {
    GoodOutcomeStaysClosed(p.dependencies[body.selected].breaker, now);
  }

  /** The permit body of the `n`th write. */
  function WritePermit(p: Policy, t: TenantId, dep: DependencyId, key: int, n: int, now: int): PermitBody {
    PermitFor(p, KeyedRequest(t, dep, key, n, true), Selection(dep, None), now, n)
  }

  /** The permit is in flight for side effects. */
  predicate InFlight(s: State, body: PermitBody) {
    body.id in s.active && s.active[body.id] == ActivePermit(body, true, 0)
  }

  /** After the write and the read, both permits are in flight and the key is reserved. */
  predicate WriteAndRead(s: State, t: TenantId, key: int, write: PermitBody, read: PermitBody) {
    && s.circuits == map[]
    && InFlight(s, write)
    && 2 in s.active && s.active[2].digest == read
    && s.seenAttempts == {(t, 1), (t, 2)}
    && s.attempts == map[(t, 1) := 1, (t, 2) := 1]
    && s.committedEffects == {} && s.activeEffects == {(t, key)} && s.usedReports == {}
  }

  /** The permit body of the read. */
  function ReadPermit(p: Policy, t: TenantId, dep: DependencyId, key: int, now: int): PermitBody {
    PermitFor(p, KeyedRequest(t, dep, key, 2, false), Selection(dep, None), now, 2)
  }

  function WriteThenRead(t: TenantId, dep: DependencyId, key: int, now: int): seq<Step> {
    [Admit(KeyedRequest(t, dep, key, 1, true), now, 1), Admit(KeyedRequest(t, dep, key, 2, false), now, 2)]
  }

  lemma BothAdmitted(p: Policy, t: TenantId, dep: DependencyId, key: int, now: int)
    requires OneHealthyDependency(p, dep)
    ensures WriteAndRead(Run(p, Initial, WriteThenRead(t, dep, key, now)), t, key,
                         WritePermit(p, t, dep, key, 1, now), ReadPermit(p, t, dep, key, now))
  {
    var write, read := KeyedRequest(t, dep, key, 1, true), KeyedRequest(t, dep, key, 2, false);
    var none: seq<Step> := [];
    var s := KeyedAdmission(p, none, write, now, 1);
    var one := none + [Admit(write, now, 1)];
    var s' := KeyedAdmission(p, one, read, now, 2);
    assert one + [Admit(read, now, 2)] == WriteThenRead(t, dep, key, now);
  }

  function DoubleGrantRun(p: Policy, t: TenantId, dep: DependencyId, key: int, now: int): seq<Step> {
    WriteThenRead(t, dep, key, now)
    + [SettleWell(ReadPermit(p, t, dep, key, now), 1, now)]
    + [Admit(KeyedRequest(t, dep, key, 3, true), now, 3)]
  }

  lemma BothGranted(p: Policy, t: TenantId, dep: DependencyId, key: int, now: int)
    requires OneHealthyDependency(p, dep)
    ensures var s := Run(p, Initial, DoubleGrantRun(p, t, dep, key, now));
            && InFlight(s, WritePermit(p, t, dep, key, 1, now)) && InFlight(s, WritePermit(p, t, dep, key, 3, now))
            && s.usedReports == {1}
  {
    var before := WriteThenRead(t, dep, key, now);
    var body := ReadPermit(p, t, dep, key, now);
    var settled := before + [SettleWell(body, 1, now)];
    var again := KeyedRequest(t, dep, key, 3, true);
    BothAdmitted(p, t, dep, key, now);
    SettlingFreesKey(p, Run(p, Initial, before), body, 1, now);
    RunExtends(p, before, SettleWell(body, 1, now));
    var s := KeyedAdmission(p, settled, again, now, 3);
  }

  /**
   In every policy with one healthy dependency a run reaches a state with two side-effecting calls in flight
   under one key: a write reserves it, a read that carries the same key settles, and a second write is granted.
   */
  lemma KeyGrantedTwiceAtOnce(p: Policy, t: TenantId, dep: DependencyId, key: int, now: int)
    requires OneHealthyDependency(p, dep)
    ensures var s := Run(p, Initial, DoubleGrantRun(p, t, dep, key, now));
            Holds(s, 1, (t, key)) && Holds(s, 3, (t, key))
  {
    BothGranted(p, t, dep, key, now);
  }

  /** Settle a write whose side effect was committed. */
  function SettleCommitted(body: PermitBody, report: ReportId, now: int): Step {
    Settle(Permit(body, body), GoodReport(body, report, now).(committed := true), true, now)
  }

  lemma CommitRecorded(p: Policy, run: seq<Step>, body: PermitBody, report: ReportId, now: int)
    requires p.Valid() && body.selected in p.dependencies && body.key.Some? && body.issuedAt <= now <= body.expiresAt
    requires var s := Run(p, Initial, run); InFlight(s, body) && report !in s.usedReports
    ensures var longer := run + [SettleCommitted(body, report, now)];
            && CommitsKey(p, longer, |run|, KeyOf(body)) && SettlesSideEffect(p, longer, |run|)
            && var s, s' := Run(p, Initial, run), Run(p, Initial, longer);
               && s'.active == s.active - {body.id} && s'.usedReports == s.usedReports + {report}
  {
    var step := SettleCommitted(body, report, now);
    var longer := run + [step];
    RunExtends(p, run, step);
    assert longer[..|run|] == run && longer[|run|] == step;
  }

  lemma CommitsStay(p: Policy, run: seq<Step>, step: Step, i: nat, e: EffectKey)
    requires p.Valid() && i < |run| && CommitsKey(p, run, i, e) && SettlesSideEffect(p, run, i)
    ensures CommitsKey(p, run + [step], i, e) && SettlesSideEffect(p, run + [step], i)
  {
    assert (run + [step])[..i] == run[..i] && (run + [step])[i] == run[i];
  }

  /** The same run, continued, commits two side effects under the one key. */
  lemma KeyCommittedTwice(p: Policy, t: TenantId, dep: DependencyId, key: int, now: int)
    requires OneHealthyDependency(p, dep)
    ensures var run := DoubleGrantRun(p, t, dep, key, now)
                       + [SettleCommitted(WritePermit(p, t, dep, key, 1, now), 2, now)]
                       + [SettleCommitted(WritePermit(p, t, dep, key, 3, now), 3, now)];
            && |run| == 6
            && CommitsKey(p, run, 4, (t, key)) && SettlesSideEffect(p, run, 4)
            && CommitsKey(p, run, 5, (t, key)) && SettlesSideEffect(p, run, 5)
  {
    var granted := DoubleGrantRun(p, t, dep, key, now);
    var first, second := WritePermit(p, t, dep, key, 1, now), WritePermit(p, t, dep, key, 3, now);
    BothGranted(p, t, dep, key, now);
    CommitRecorded(p, granted, first, 2, now);
    var once := granted + [SettleCommitted(first, 2, now)];
    CommitRecorded(p, once, second, 3, now);
    CommitsStay(p, once, SettleCommitted(second, 3, now), 4, (t, key));
  }
}
