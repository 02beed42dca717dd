/** The pruned prompt queues answer as the log would, and so bound the prompts of every window. */
module PromptInvariants {
  import opened Wrappers
  import opened PromptModel

  /******* Pruning a sorted queue *******/

  predicate Sorted(q: seq<Prompt>) {
    forall i, j :: 0 <= i < j < |q| ==> q[i].at <= q[j].at
  }

  lemma {:induction false} NewerAll(q: seq<Prompt>, cutoff: int)
    requires forall i :: 0 <= i < |q| ==> q[i].at > cutoff
    ensures Newer(q, cutoff) == q
  {
    if q != [] {
      NewerAll(q[..|q| - 1], cutoff);
    }
  }

  lemma {:induction false} NewerDropsFirst(q: seq<Prompt>, cutoff: int)
    requires q != [] && q[0].at <= cutoff
    ensures Newer(q, cutoff) == Newer(q[1..], cutoff)
  {
    if |q| == 1 {
      assert q[..0] == [] && q[1..] == [];
    } else {
      NewerDropsFirst(q[..|q| - 1], cutoff);
      assert q[..|q| - 1][1..] == q[1..][..|q| - 2];
    }
  }

  /** On a sorted queue dropping from the front removes exactly the expired prompts. */
  lemma {:induction false} PruneIsFilter(q: seq<Prompt>, cutoff: int)
    requires Sorted(q)
    ensures PruneFront(q, cutoff) == Newer(q, cutoff)
  {
    if q != [] && q[0].at <= cutoff {
      NewerDropsFirst(q, cutoff);
      PruneIsFilter(q[1..], cutoff);
    } else {
      NewerAll(q, cutoff);
    }
  }

  lemma {:induction false} NewerTwice(q: seq<Prompt>, first: int, second: int)
    requires first <= second
    ensures Newer(Newer(q, first), second) == Newer(q, second)
  {
    if q != [] {
      var last := q[|q| - 1];
      NewerTwice(q[..|q| - 1], first, second);
      if last.at > first {
        assert Newer(q, first)[..|Newer(q, first)| - 1] == Newer(q[..|q| - 1], first);
      } else {
        assert Newer(q, first) == Newer(q[..|q| - 1], first);
      }
    }
  }

  lemma {:induction false} NewerSorted(q: seq<Prompt>, cutoff: int)
    requires Sorted(q)
    ensures Sorted(Newer(q, cutoff))
    ensures forall i :: 0 <= i < |Newer(q, cutoff)| ==> Newer(q, cutoff)[i].at <= q[|q| - 1].at
  {
    if q != [] { NewerSorted(q[..|q| - 1], cutoff); }
  }

  lemma NewerAppends(q: seq<Prompt>, x: Prompt, cutoff: int)
    requires x.at > cutoff
    ensures Newer(q + [x], cutoff) == Newer(q, cutoff) + [x]
  {
    assert (q + [x])[..|q|] == q;
  }

  /******* Refinement *******/

  /** The log as seen through a window: per key what is newer than the cutoff, and no key without any. */
  function Window(log: Prompts, cutoff: int): Prompts {
    map k | k in log && Newer(log[k], cutoff) != [] :: Newer(log[k], cutoff)
  }

  ghost predicate IsWindow(prompts: Prompts, log: Prompts, cutoff: int) {
    prompts == Window(log, cutoff)
  }

  ghost predicate LogSorted(log: Prompts, now: int) {
    forall k :: k in log ==> Sorted(log[k]) && forall i :: 0 <= i < |log[k]| ==> log[k][i].at <= now
  }

  lemma PruneOne(q: seq<Prompt>, before: int, cutoff: int)
    requires Sorted(q) && before <= cutoff
    ensures PruneFront(Newer(q, before), cutoff) == Newer(q, cutoff)
    ensures Newer(q, before) == [] ==> Newer(q, cutoff) == []
  {
    NewerSorted(q, before);
    PruneIsFilter(Newer(q, before), cutoff);
    NewerTwice(q, before, cutoff);
  }

  /** Pruning an earlier window gives the later one. */
  lemma PruneWindow(prompts: Prompts, log: Prompts, before: int, cutoff: int, now: int)
    requires before <= cutoff && LogSorted(log, now) && IsWindow(prompts, log, before)
    ensures IsWindow(Prune(prompts, cutoff), log, cutoff)
  {
    forall k | k in log
      ensures PruneFront(Newer(log[k], before), cutoff) == Newer(log[k], cutoff)
      ensures Newer(log[k], before) == [] ==> Newer(log[k], cutoff) == []
    {
      PruneOne(log[k], before, cutoff);
    }
  }

  lemma WindowKeys(log: Prompts, cutoff: int)
    ensures Window(log, cutoff).Keys == LiveKeys(log, cutoff)
    ensures |Window(log, cutoff)| == |LiveKeys(log, cutoff)|
  {
    assert |Window(log, cutoff)| == |Window(log, cutoff).Keys|;
  }

  lemma WindowQueue(log: Prompts, cutoff: int, key: Key)
    ensures QueueOf(Window(log, cutoff), key) == Newer(QueueOf(log, key), cutoff)
  {
  }

  lemma StoreInWindow(log: Prompts, key: Key, x: Prompt, cutoff: int)
    requires cutoff < x.at
    ensures Window(log, cutoff)[key := QueueOf(Window(log, cutoff), key) + [x]]
            == Window(log[key := QueueOf(log, key) + [x]], cutoff)
  {
    NewerAppends(QueueOf(log, key), x, cutoff);
  }

  lemma KeepQueue(live: Prompts, key: Key)
    requires key in live
    ensures live[key := QueueOf(live, key)] == live
  {
  }

  /** Whatever the answer, the queues are the window of the log after it; fatigue never creates a queue. */
  lemma AfterWindow(live: Prompts, log: Prompts, key: Key, x: Prompt, status: Status, cutoff: int)
    requires IsWindow(live, log, cutoff) && cutoff < x.at && (status == Fatigue ==> key in live)
    ensures IsWindow(AfterRecord(live, key, x, status), AfterLogging(log, key, x, status), cutoff)
  {
    match status
    case Full =>
    case Fatigue => KeepQueue(live, key);
    case Stored => StoreInWindow(log, key, x, cutoff);
  }

  function StatusOf(l: Limits, live: Prompts, key: Key, preview: int): Status {
    Decide(l, |live|, key in live, QueueOf(live, key), preview)
  }

  /** On the same window, queues and log decide alike. */
  lemma DecideAlike(l: Limits, live: Prompts, log: Prompts, key: Key, preview: int, now: int)
    requires l.Valid() && IsWindow(live, log, l.Cutoff(now))
    ensures StatusOf(l, live, key, preview) == RecordInLog(l, log, key, preview, now).1
    ensures StatusOf(l, live, key, preview) == Fatigue ==> key in live
  {
    WindowKeys(log, l.Cutoff(now));
    WindowQueue(log, l.Cutoff(now), key);
    assert key in live <==> key in live.Keys;
  }

  lemma LogGrowsSorted(log: Prompts, key: Key, x: Prompt, status: Status)
    requires LogSorted(log, x.at)
    ensures LogSorted(AfterLogging(log, key, x, status), x.at)
  {
  }

  /** Equal answers on the same window lead to the same window. */
  lemma RefinesOn(live: Prompts, log: Prompts, key: Key, x: Prompt, status: Status, cutoff: int,
                  after: Prompts, logged: Prompts)
    requires IsWindow(live, log, cutoff) && cutoff < x.at && (status == Fatigue ==> key in live)
    requires after == AfterRecord(live, key, x, status) && logged == AfterLogging(log, key, x, status)
    ensures IsWindow(after, logged, cutoff)
  {
    AfterWindow(live, log, key, x, status, cutoff);
  }

  lemma SameAnswer(l: Limits, prompts: Prompts, log: Prompts, c: Call)
    requires l.Valid() && IsWindow(Prune(prompts, l.Cutoff(c.now)), log, l.Cutoff(c.now))
    ensures var status := Record(l, prompts, c.key, c.preview, c.now).1;
            && status == RecordInLog(l, log, c.key, c.preview, c.now).1
            && (status == Fatigue ==> c.key in Prune(prompts, l.Cutoff(c.now)))
  {
    DecideAlike(l, Prune(prompts, l.Cutoff(c.now)), log, c.key, c.preview, c.now);
  }

  lemma RecordRefines(l: Limits, prompts: Prompts, log: Prompts, before: int, c: Call)
    requires l.Valid() && before <= l.Cutoff(c.now) && LogSorted(log, c.now) && IsWindow(prompts, log, before)
    ensures Record(l, prompts, c.key, c.preview, c.now).1 == RecordInLog(l, log, c.key, c.preview, c.now).1
    ensures IsWindow(Record(l, prompts, c.key, c.preview, c.now).0,
                     RecordInLog(l, log, c.key, c.preview, c.now).0, l.Cutoff(c.now))
  {
    var (after, status) := Record(l, prompts, c.key, c.preview, c.now);
    var (logged, answer) := RecordInLog(l, log, c.key, c.preview, c.now);
    PruneWindow(prompts, log, before, l.Cutoff(c.now), c.now);
    SameAnswer(l, prompts, log, c);
    RefinesOn(Prune(prompts, l.Cutoff(c.now)), log, c.key, Prompt(c.now, c.preview), status, l.Cutoff(c.now),
              after, logged);
  }

  lemma {:induction false} RunLogSorted(l: Limits, run: seq<Call>, now: int)
    requires ClockForward(run) && (run != [] ==> run[|run| - 1].now <= now)
    ensures LogSorted(RunLog(l, run), now)
  {
    if run != [] {
      var c := run[|run| - 1];
      var log := RunLog(l, run[..|run| - 1]);
      RunLogSorted(l, run[..|run| - 1], c.now);
      LogGrowsSorted(log, c.key, Prompt(c.now, c.preview), RecordInLog(l, log, c.key, c.preview, c.now).1);
      SortedLater(RunLog(l, run), c.now, now);
    }
  }

  lemma SortedLater(log: Prompts, before: int, now: int)
    requires LogSorted(log, before) && before <= now
    ensures LogSorted(log, now)
  {
  }

  /** The last cutoff a run pruned with, or `first` when it has not pruned yet. */
  function LastCutoff(l: Limits, run: seq<Call>, first: int): int {
    if run == [] then first else l.Cutoff(run[|run| - 1].now)
  }

  lemma EmptyWindow(cutoff: int)
    ensures IsWindow(map[], map[], cutoff)
  {
  }

  lemma {:induction false} RunIsWindow(l: Limits, run: seq<Call>, first: int)
    requires l.Valid() && ClockForward(run)
    ensures IsWindow(Run(l, run), RunLog(l, run), LastCutoff(l, run, first))
  {
    if run == [] {
      EmptyWindow(first);
    } else {
      var c := run[|run| - 1];
      var before := run[..|run| - 1];
      var cutoff := LastCutoff(l, before, l.Cutoff(c.now));
      RunIsWindow(l, before, l.Cutoff(c.now));
      RunLogSorted(l, before, c.now);
      RecordRefines(l, Run(l, before), RunLog(l, before), cutoff, c);
      assert LastCutoff(l, run, first) == l.Cutoff(c.now);
    }
  }

  /**
   With a fixed window and a forward clock the pruned queues give every answer, FULL included, that counting
   the log's entries newer than now less the window would give.
   */
  lemma PruningIsInvisible(l: Limits, run: seq<Call>, i: nat)
    requires l.Valid() && ClockForward(run) && i < |run|
    ensures StatusAt(l, run, i) == RecordInLog(l, RunLog(l, run[..i]), run[i].key, run[i].preview, run[i].now).1
  {
    var before := run[..i];
    var c := run[i];
    RunIsWindow(l, before, l.Cutoff(c.now));
    RunLogSorted(l, before, c.now);
    RecordRefines(l, Run(l, before), RunLog(l, before), LastCutoff(l, before, l.Cutoff(c.now)), c);
  }

  /******* Every window *******/

  /** The prompts in the half-open interval from just after `start` to `start + window`. */
  function Within(q: seq<Prompt>, start: int, window: nat): seq<Prompt> {
    if q == [] then []
    else
      var x := q[|q| - 1];
      Within(q[..|q| - 1], start, window) + if start < x.at <= start + window then [x] else []
  }

  /** Each prompt was stored while the window before it was below both limits. */
  ghost predicate Spaced(l: Limits, q: seq<Prompt>) {
    forall i :: 0 <= i < |q| ==> HadRoom(l, q[..i], q[i])
  }

  predicate HadRoom(l: Limits, q: seq<Prompt>, x: Prompt) {
    !TooMany(l, Newer(q, l.Cutoff(x.at)), x.preview)
  }

  ghost predicate LogSpaced(l: Limits, log: Prompts) {
    forall k :: k in log ==> Spaced(l, log[k])
  }

  lemma SpacedGrows(l: Limits, q: seq<Prompt>, x: Prompt)
    requires Spaced(l, q) && HadRoom(l, q, x)
    ensures Spaced(l, q + [x])
  {
    var longer := q + [x];
    forall i | 0 <= i < |longer| ensures HadRoom(l, longer[..i], longer[i]) {
      if i < |q| { assert longer[..i] == q[..i]; } else { assert longer[..i] == q; }
    }
  }

  lemma SpacedFront(l: Limits, q: seq<Prompt>)
    requires Spaced(l, q) && q != []
    ensures Spaced(l, q[..|q| - 1]) && HadRoom(l, q[..|q| - 1], q[|q| - 1])
  {
    var front := q[..|q| - 1];
    forall i | 0 <= i < |front| ensures HadRoom(l, front[..i], front[i]) {
      assert front[..i] == q[..i];
    }
  }

  lemma {:induction false} RunSpaced(l: Limits, run: seq<Call>)
    ensures LogSpaced(l, RunLog(l, run))
  {
    if run != [] {
      var c := run[|run| - 1];
      var log := RunLog(l, run[..|run| - 1]);
      RunSpaced(l, run[..|run| - 1]);
      if RecordInLog(l, log, c.key, c.preview, c.now).1 == Stored {
        SpacedGrows(l, QueueOf(log, c.key), Prompt(c.now, c.preview));
      }
    }
  }

  lemma {:induction false} RepeatsAppend(q: seq<Prompt>, x: Prompt, preview: int)
    ensures Repeats(q + [x], preview) == Repeats(q, preview) + if x.preview == preview then 1 else 0
  {
    assert (q + [x])[..|q|] == q;
  }

  /** What lies in an interval ending no earlier than the cutoff's window is among what is newer than the cutoff. */
  lemma {:induction false} WithinIsNewer(q: seq<Prompt>, start: int, window: nat, cutoff: int, preview: int)
    requires cutoff <= start
    ensures |Within(q, start, window)| <= |Newer(q, cutoff)|
    ensures Repeats(Within(q, start, window), preview) <= Repeats(Newer(q, cutoff), preview)
  {
    if q != [] {
      var x := q[|q| - 1];
      WithinIsNewer(q[..|q| - 1], start, window, cutoff, preview);
      RepeatsAppend(Within(q[..|q| - 1], start, window), x, preview);
      RepeatsAppend(Newer(q[..|q| - 1], cutoff), x, preview);
      if !(start < x.at <= start + window) { assert Within(q, start, window) == Within(q[..|q| - 1], start, window); }
      if !(x.at > cutoff) { assert Newer(q, cutoff) == Newer(q[..|q| - 1], cutoff); }
    }
  }

  lemma OneMoreFits(l: Limits, front: seq<Prompt>, x: Prompt, start: int, preview: int)
    requires HadRoom(l, front, x) && l.Cutoff(x.at) <= start
    ensures |Within(front, start, l.window)| + 1 <= l.maxPrompts
    ensures x.preview == preview ==> Repeats(Within(front, start, l.window), preview) + 1 <= l.maxRepeats
  {
    WithinIsNewer(front, start, l.window, l.Cutoff(x.at), preview);
  }

  lemma {:induction false} SpacedBoundsWindow(l: Limits, q: seq<Prompt>, start: int, preview: int)
    requires Spaced(l, q)
    ensures |Within(q, start, l.window)| <= l.maxPrompts
    ensures Repeats(Within(q, start, l.window), preview) <= l.maxRepeats
  {
    if q != [] {
      var front := q[..|q| - 1];
      var x := q[|q| - 1];
      SpacedFront(l, q);
      SpacedBoundsWindow(l, front, start, preview);
      if start < x.at <= start + l.window {
        OneMoreFits(l, front, x, start, preview);
        RepeatsAppend(Within(front, start, l.window), x, preview);
      } else {
        assert Within(q, start, l.window) == Within(front, start, l.window);
      }
    }
  }

  /** The prompts of a key that the store answered STORED, in order. */
  function StoredPrompts(l: Limits, run: seq<Call>, key: Key): seq<Prompt> {
    if run == [] then [] else
      var before := run[..|run| - 1];
      var c := run[|run| - 1];
      StoredPrompts(l, before, key)
      + if c.key == key && Record(l, Run(l, before), c.key, c.preview, c.now).1 == Stored
        then [Prompt(c.now, c.preview)] else []
  }

  lemma {:induction false} LogIsStored(l: Limits, run: seq<Call>, key: Key)
    requires l.Valid() && ClockForward(run)
    ensures QueueOf(RunLog(l, run), key) == StoredPrompts(l, run, key)
  {
    if run != [] {
      var before := run[..|run| - 1];
      LogIsStored(l, before, key);
      PruningIsInvisible(l, run, |run| - 1);
    }
  }

  /**
   In any run under a forward clock, any interval of the window's length holds at most the allowed number of
   stored prompts of a key, and at most the repeat limit of any one preview.
   */
  lemma EveryWindowBounded(l: Limits, run: seq<Call>, key: Key, start: int, preview: int)
    requires l.Valid() && ClockForward(run)
    ensures |Within(StoredPrompts(l, run, key), start, l.window)| <= l.maxPrompts
    ensures Repeats(Within(StoredPrompts(l, run, key), start, l.window), preview) <= l.maxRepeats
  {
    LogIsStored(l, run, key);
    RunSpaced(l, run);
    SpacedBoundsWindow(l, QueueOf(RunLog(l, run), key), start, preview);
  }
}
