/** Nothing is accepted twice, although both stores forget. */
module ReplayInvariants {
  import opened Wrappers
  import opened ReplayModel

  /******* The evicting store refines a log *******/

  /** The store holds at least what the log says is live, and nothing the log does not say. */
  ghost predicate Agrees(store: Store, log: Store, now: int) {
    && (forall k :: k in store ==> k in log && log[k] == store[k])
    && (forall k :: k in log && log[k] > now ==> k in store)
  }

  lemma LiveAgrees(store: Store, log: Store, before: int, now: int)
    requires Agrees(store, log, before) && before <= now
    ensures Live(store, now) == Live(log, now)
  {
  }

  lemma OfferAgrees(store: Store, log: Store, capacity: nat, a: Attempt, before: int)
    requires Agrees(store, log, before) && before <= a.now
    ensures Offer(store, capacity, a).1 == OfferToLog(log, capacity, a).1
    ensures Agrees(Offer(store, capacity, a).0, OfferToLog(log, capacity, a).0, a.now)
  {
    LiveAgrees(store, log, before, a.now);
  }

  lemma PrefixForward(run: seq<Attempt>, k: nat)
    requires ClockForward(run) && k <= |run|
    ensures ClockForward(run[..k])
  {
  }

  lemma {:induction false} RunAgrees(capacity: nat, run: seq<Attempt>, now: int)
    requires ClockForward(run) && (run != [] ==> run[|run| - 1].now <= now)
    ensures Agrees(Run(capacity, run), RunLog(capacity, run), now)
  {
    if run != [] {
      var last := |run| - 1;
      PrefixForward(run, last);
      RunAgrees(capacity, run[..last], run[last].now);
      OfferAgrees(Run(capacity, run[..last]), RunLog(capacity, run[..last]), capacity, run[last], run[last].now);
      AgreesLater(Run(capacity, run), RunLog(capacity, run), run[last].now, now);
    }
  }

  lemma AgreesLater(store: Store, log: Store, before: int, now: int)
    requires Agrees(store, log, before) && before <= now
    ensures Agrees(store, log, now)
  {
  }

  /** Under a forward clock the evicting store gives every answer a log that forgets nothing would give. */
  lemma EvictionIsInvisible(capacity: nat, run: seq<Attempt>, i: nat)
    requires ClockForward(run) && i < |run|
    ensures VerdictAt(capacity, run, i) == OfferToLog(RunLog(capacity, run[..i]), capacity, run[i]).1
  {
    PrefixForward(run, i);
    RunAgrees(capacity, run[..i], run[i].now);
    OfferAgrees(Run(capacity, run[..i]), RunLog(capacity, run[..i]), capacity, run[i], run[i].now);
  }

  /******* What a store remembers, whatever its clock does *******/

  /** An offer that reaches the store this late deletes every claim due by then. */
  predicate Evicts(a: Attempt, until: int) {
    a.admitted && a.now < a.until && until <= a.now
  }

  /** Some offer after the `i`th and before the `n`th deletes the claim of the `i`th. */
  predicate EvictedBefore(run: seq<Attempt>, i: nat, n: nat)
    requires i < |run| && n <= |run|
  {
    exists k :: i < k < n && Evicts(run[k], run[i].until)
  }

  /** The key of the `i`th offer is not accepted again after it and before the `n`th. */
  ghost predicate NotAcceptedBetween(capacity: nat, run: seq<Attempt>, i: nat, n: nat)
    requires i < |run| && n <= |run|
  {
    forall k :: i < k < n && run[k].key == run[i].key ==> !AcceptedAt(capacity, run, k)
  }

  lemma OfferForgetsIff(store: Store, capacity: nat, a: Attempt, key: Key, until: int)
    requires key in store && store[key] == until
    requires a.key == key ==> Offer(store, capacity, a).1 != Answered(Claimed)
    ensures var after := Offer(store, capacity, a).0;
            && (key in after <==> !Evicts(a, until))
            && (key in after ==> after[key] == until)
  {
  }

  lemma OfferStaysForgotten(store: Store, capacity: nat, a: Attempt, key: Key)
    requires key !in store && (a.key == key ==> Offer(store, capacity, a).1 != Answered(Claimed))
    ensures key !in Offer(store, capacity, a).0
  {
  }

  lemma RunExtends(capacity: nat, run: seq<Attempt>, n: nat)
    requires n < |run|
    ensures Run(capacity, run[..n + 1]) == Offer(Run(capacity, run[..n]), capacity, run[n]).0
  {
    assert run[..n + 1][..n] == run[..n];
  }

  lemma OneMoreOffer(run: seq<Attempt>, i: nat, n: nat)
    requires i < n < |run|
    ensures EvictedBefore(run, i, n + 1) <==> EvictedBefore(run, i, n) || Evicts(run[n], run[i].until)
  {
  }

  /** A claim is still in the store exactly while no offer has deleted it. */
  lemma {:induction false} RememberedIff(capacity: nat, run: seq<Attempt>, i: nat, n: nat)
    requires i < n <= |run| && AcceptedAt(capacity, run, i) && NotAcceptedBetween(capacity, run, i, n)
    ensures var store := Run(capacity, run[..n]);
            && (run[i].key in store <==> !EvictedBefore(run, i, n))
            && (run[i].key in store ==> store[run[i].key] == run[i].until)
  {
    if n == i + 1 {
      RunExtends(capacity, run, i);
    } else {
      var last := n - 1;
      RememberedIff(capacity, run, i, last);
      RunExtends(capacity, run, last);
      OneMoreOffer(run, i, last);
      assert run[last].key == run[i].key ==> !AcceptedAt(capacity, run, last);
      if EvictedBefore(run, i, last) {
        OfferStaysForgotten(Run(capacity, run[..last]), capacity, run[last], run[i].key);
      } else {
        OfferForgetsIff(Run(capacity, run[..last]), capacity, run[last], run[i].key, run[i].until);
      }
    }
  }

  /**
   With any clock: after a claim, the next offer of its key that gets as far as the store is answered
   REPLAYED if and only if no offer since, itself included, reached the store at or after the claim's deadline.
   */
  lemma ReplayedIff(capacity: nat, run: seq<Attempt>, i: nat, j: nat)
    requires i < j < |run| && run[j].key == run[i].key && AcceptedAt(capacity, run, i)
    requires NotAcceptedBetween(capacity, run, i, j)
    requires run[j].admitted && run[j].now < run[j].until
    ensures VerdictAt(capacity, run, j) == Answered(Replayed) <==> !EvictedBefore(run, i, j + 1)
  {
    RememberedIff(capacity, run, i, j);
    OneMoreOffer(run, i, j);
  }

  /******* Nothing twice *******/

  /** A key is accepted again only after some offer has reached the store at or after its first deadline. */
  lemma {:induction false} AcceptedAgainOnlyIfEvicted(capacity: nat, run: seq<Attempt>, i: nat, j: nat)
    requires i < j < |run| && run[i].key == run[j].key
    requires AcceptedAt(capacity, run, i) && AcceptedAt(capacity, run, j)
    ensures EvictedBefore(run, i, j + 1)
    decreases j
  {
    if NotAcceptedBetween(capacity, run, i, j) {
      ReplayedIff(capacity, run, i, j);
    } else {
      var k :| i < k < j && run[k].key == run[i].key && AcceptedAt(capacity, run, k);
      AcceptedAgainOnlyIfEvicted(capacity, run, i, k);
    }
  }

  /** Under a forward clock, a key is accepted again only once its first claim has run out. */
  lemma AcceptedAgainOnlyAfterDeadline(capacity: nat, run: seq<Attempt>, i: nat, j: nat)
    requires ClockForward(run) && i < j < |run| && run[i].key == run[j].key
    requires AcceptedAt(capacity, run, i) && AcceptedAt(capacity, run, j)
    ensures run[i].until <= run[j].now
  {
    AcceptedAgainOnlyIfEvicted(capacity, run, i, j);
    var k :| i < k < j + 1 && Evicts(run[k], run[i].until);
    assert run[k].now <= run[j].now;
  }

  /**
   When the clock goes back between two offers of one item, with an offer past its deadline in between, the
   item is accepted twice, although a log would still refuse it.
   */
  lemma BackwardClockForgets(capacity: nat, a: Attempt, other: Attempt)
    requires 2 <= capacity && a.admitted && other.admitted && a.key != other.key
    requires a.now < a.until <= other.now < other.until
    ensures var run := [a, other, a];
            && AcceptedAt(capacity, run, 0) && AcceptedAt(capacity, run, 2)
            && OfferToLog(RunLog(capacity, run[..2]), capacity, a).1 == Answered(Replayed)
  {
    var run := [a, other, a];
    assert run[..0] == [] && run[..1] == [a] && run[..2] == [a, other];
    assert [a][..0] == [] && [a, other][..1] == [a];
    assert Live(map[], a.now) == map[];
    assert Run(capacity, [a]) == map[a.key := a.until];
    assert Live(map[a.key := a.until], other.now) == map[];
    assert Run(capacity, [a, other]) == map[other.key := other.until];
    assert Live(map[other.key := other.until], a.now) == map[other.key := other.until];
    assert |map[other.key := other.until]| == 1;
    assert RunLog(capacity, [a]) == map[a.key := a.until];
  }

  /** An item admitted by its freshness checks is always before its own retention deadline. */
  ghost predicate WellTimed(run: seq<Attempt>) {
    forall i :: 0 <= i < |run| && run[i].admitted ==> run[i].now < run[i].until
  }

  /** The store's past-expiry error is never reached, and the store never outgrows its capacity. */
  lemma {:induction false} NoErrorAndNoOverflow(capacity: nat, run: seq<Attempt>)
    requires WellTimed(run)
    ensures |Run(capacity, run)| <= capacity
    ensures forall i :: 0 <= i < |run| ==> VerdictAt(capacity, run, i) != Answered(PastExpiry)
  {
    if run != [] {
      var last := |run| - 1;
      var before := run[..last];
      assert WellTimed(before) by {
        forall i | 0 <= i < |before| && before[i].admitted ensures before[i].now < before[i].until {
          assert run[i] == before[i];
        }
      }
      NoErrorAndNoOverflow(capacity, before);
      OfferFits(Run(capacity, before), capacity, run[last]);
      forall i | 0 <= i < |run| ensures VerdictAt(capacity, run, i) != Answered(PastExpiry) {
        if i < last {
          assert before[..i] == run[..i] && before[i] == run[i];
          assert VerdictAt(capacity, before, i) != Answered(PastExpiry);
        }
      }
    }
  }

  lemma LiveIsSmaller(store: Store, now: int)
    ensures |Live(store, now)| <= |store|
  {
    Subset(Live(store, now).Keys, store.Keys);
    assert |Live(store, now)| == |Live(store, now).Keys| && |store| == |store.Keys|;
  }

  lemma {:induction false} Subset<T>(x: set<T>, y: set<T>)
    requires x <= y
    ensures |x| <= |y|
  {
    assert y == x + (y - x);
  }

  lemma OfferFits(store: Store, capacity: nat, a: Attempt)
    requires |store| <= capacity
    ensures |Offer(store, capacity, a).0| <= capacity
  {
    LiveIsSmaller(store, a.now);
  }

  /******* Messages *******/

  datatype Message = Message(envelope: Envelope, authentic: bool, now: int)

  function MessageRun(p: MessagePolicy, ms: seq<Message>): (run: seq<Attempt>)
    ensures |run| == |ms|
  {
    seq(|ms|, i requires 0 <= i < |ms| => MessageAttempt(p, ms[i].envelope, ms[i].authentic, ms[i].now))
  }

  /** The `i`th message was accepted, and no message under its nonce was accepted between it and the `j`th. */
  ghost predicate LastAccepted(capacity: nat, run: seq<Attempt>, i: nat, j: nat)
    requires i < |run| && j <= |run|
  {
    AcceptedAt(capacity, run, i) && NotAcceptedBetween(capacity, run, i, j)
  }

  /**
   With any clock: an accepted envelope presented again, while it still passes its own checks, is refused as
   a replay if and only if every message in between that passed its checks came before the retention deadline.
   */
  lemma EnvelopeRefusedIff(p: MessagePolicy, capacity: nat, ms: seq<Message>, i: nat, j: nat)
    requires i < j < |ms| && ms[i].envelope == ms[j].envelope
    requires LastAccepted(capacity, MessageRun(p, ms), i, j)
    requires ms[j].authentic && MessageFresh(p, ms[j].envelope, ms[j].now)
    ensures VerdictAt(capacity, MessageRun(p, ms), j) == Answered(Replayed) <==>
            forall k :: i < k < j && ms[k].authentic && MessageFresh(p, ms[k].envelope, ms[k].now) ==>
              ms[k].now < RememberMessage(p, ms[i].envelope)
  {
    var run := MessageRun(p, ms);
    ReplayedIff(capacity, run, i, j);
    OneMoreOffer(run, i, j);
    forall k | i < k < j
      ensures Evicts(run[k], run[i].until) <==>
              && ms[k].authentic && MessageFresh(p, ms[k].envelope, ms[k].now)
              && RememberMessage(p, ms[i].envelope) <= ms[k].now
    {
      assert run[k] == MessageAttempt(p, ms[k].envelope, ms[k].authentic, ms[k].now);
    }
  }

  /** Under a forward clock no envelope is accepted twice, however often the store has been pruned in between. */
  lemma EnvelopeAcceptedOnce(p: MessagePolicy, capacity: nat, ms: seq<Message>, i: nat, j: nat)
    requires i < j < |ms| && ms[i].envelope == ms[j].envelope && ClockForward(MessageRun(p, ms))
    ensures !(AcceptedAt(capacity, MessageRun(p, ms), i) && AcceptedAt(capacity, MessageRun(p, ms), j))
  {
    var run := MessageRun(p, ms);
    if AcceptedAt(capacity, run, i) && AcceptedAt(capacity, run, j) {
      AcceptedAgainOnlyAfterDeadline(capacity, run, i, j);
    }
  }

  /** An authentic envelope accepted twice: a later message passes in between and the clock then goes back. */
  lemma EnvelopeAcceptedTwice()
    ensures exists p, ms :: |ms| == 3 && ms[0] == ms[2]
              && AcceptedAt(2, MessageRun(p, ms), 0) && AcceptedAt(2, MessageRun(p, ms), 2)
  {
    var p := MessagePolicy(0, 10, 10);
    var e, f := Envelope(1, 1, 0, 10, 0), Envelope(1, 2, 20, 30, 0);
    var ms := [Message(e, true, 5), Message(f, true, 25), Message(e, true, 5)];
    var a, other := MessageAttempt(p, e, true, 5), MessageAttempt(p, f, true, 25);
    BackwardClockForgets(2, a, other);
    assert MessageRun(p, ms) == [a, other, a];
    assert |ms| == 3 && ms[0] == ms[2];
  }

  lemma MessagesWellTimed(p: MessagePolicy, capacity: nat, ms: seq<Message>)
    ensures |Run(capacity, MessageRun(p, ms))| <= capacity
    ensures forall i :: 0 <= i < |ms| ==> VerdictAt(capacity, MessageRun(p, ms), i) != Answered(PastExpiry)
  {
    NoErrorAndNoOverflow(capacity, MessageRun(p, ms));
  }

  /******* Approval grants *******/

  datatype Presented = Presented(grant: Grant, authentic: bool, now: int)

  function GrantRun(p: GrantPolicy, gs: seq<Presented>): (run: seq<Attempt>)
    ensures |run| == |gs|
  {
    seq(|gs|, i requires 0 <= i < |gs| => GrantAttempt(p, gs[i].grant, gs[i].authentic, gs[i].now))
  }

  /**
   With any clock: an accepted grant presented again before its expiry is refused as a replay if and only if
   every grant in between that passed its checks came before the retention deadline.
   */
  lemma GrantRefusedIff(p: GrantPolicy, capacity: nat, gs: seq<Presented>, i: nat, j: nat)
    requires i < j < |gs| && gs[i].grant == gs[j].grant
    requires LastAccepted(capacity, GrantRun(p, gs), i, j)
    requires gs[j].authentic && GrantFresh(p, gs[j].grant, gs[j].now)
    ensures VerdictAt(capacity, GrantRun(p, gs), j) == Answered(Replayed) <==>
            forall k :: i < k < j && gs[k].authentic && GrantFresh(p, gs[k].grant, gs[k].now) ==>
              gs[k].now < RememberGrant(p, gs[i].grant)
  {
    var run := GrantRun(p, gs);
    ReplayedIff(capacity, run, i, j);
    OneMoreOffer(run, i, j);
    forall k | i < k < j
      ensures Evicts(run[k], run[i].until) <==>
              && gs[k].authentic && GrantFresh(p, gs[k].grant, gs[k].now)
              && RememberGrant(p, gs[i].grant) <= gs[k].now
    {
      assert run[k] == GrantAttempt(p, gs[k].grant, gs[k].authentic, gs[k].now);
    }
  }

  /** Under a forward clock no approval grant is accepted twice. */
  lemma GrantAcceptedOnce(p: GrantPolicy, capacity: nat, gs: seq<Presented>, i: nat, j: nat)
    requires i < j < |gs| && gs[i].grant == gs[j].grant && ClockForward(GrantRun(p, gs))
    ensures !(AcceptedAt(capacity, GrantRun(p, gs), i) && AcceptedAt(capacity, GrantRun(p, gs), j))
  {
    var run := GrantRun(p, gs);
    if AcceptedAt(capacity, run, i) && AcceptedAt(capacity, run, j) {
      AcceptedAgainOnlyAfterDeadline(capacity, run, i, j);
    }
  }

  /** A grant accepted twice, in the same way. */
  lemma GrantAcceptedTwice()
    ensures exists p, gs :: |gs| == 3 && gs[0] == gs[2]
              && AcceptedAt(2, GrantRun(p, gs), 0) && AcceptedAt(2, GrantRun(p, gs), 2)
  {
    var p := GrantPolicy(0, 10);
    var g, h := Grant(1, 1, 0, 10, 0), Grant(1, 2, 20, 30, 0);
    var gs := [Presented(g, true, 5), Presented(h, true, 25), Presented(g, true, 5)];
    var a, other := GrantAttempt(p, g, true, 5), GrantAttempt(p, h, true, 25);
    BackwardClockForgets(2, a, other);
    assert GrantRun(p, gs) == [a, other, a];
    assert |gs| == 3 && gs[0] == gs[2];
  }

  lemma GrantsWellTimed(p: GrantPolicy, capacity: nat, gs: seq<Presented>)
    ensures |Run(capacity, GrantRun(p, gs))| <= capacity
    ensures forall i :: 0 <= i < |gs| ==> VerdictAt(capacity, GrantRun(p, gs), i) != Answered(PastExpiry)
  {
    NoErrorAndNoOverflow(capacity, GrantRun(p, gs));
  }
}
