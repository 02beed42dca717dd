/** Exactly which prompts are stored, refused as fatigue, or refused for want of room, in terms of the calls before. */
module PromptDecisions {
  import opened Wrappers
  import opened PromptModel
  import opened PromptInvariants

  /** Call `i` was stored for the key, and is newer than the cutoff. */
  predicate StoredSince(l: Limits, run: seq<Call>, i: nat, key: Key, cutoff: int)
    requires i < |run|
  {
    StatusAt(l, run, i) == Stored && run[i].key == key && run[i].now > cutoff
  }

  /** How many of the first `n` calls were. */
  function Recent(l: Limits, run: seq<Call>, n: nat, key: Key, cutoff: int): nat
    requires n <= |run|
  {
    if n == 0 then 0
    else Recent(l, run, n - 1, key, cutoff) + if StoredSince(l, run, n - 1, key, cutoff) then 1 else 0
  }

  /** How many of them showed this preview. */
  function RecentSame(l: Limits, run: seq<Call>, n: nat, key: Key, preview: int, cutoff: int): nat
    requires n <= |run|
  {
    if n == 0 then 0
    else RecentSame(l, run, n - 1, key, preview, cutoff)
         + if StoredSince(l, run, n - 1, key, cutoff) && run[n - 1].preview == preview then 1 else 0
  }

  /** The keys for which any of them was stored. */
  function RecentKeys(l: Limits, run: seq<Call>, n: nat, cutoff: int): set<Key>
    requires n <= |run|
  {
    if n == 0 then {}
    else RecentKeys(l, run, n - 1, cutoff)
         + if StoredSince(l, run, n - 1, run[n - 1].key, cutoff) then {run[n - 1].key} else {}
  }

  lemma RunUnfolds(l: Limits, run: seq<Call>, n: nat)
    requires l.Valid() && ClockForward(run) && n < |run|
    ensures var c := run[n];
            RunLog(l, run[..n + 1])
            == AfterLogging(RunLog(l, run[..n]), c.key, Prompt(c.now, c.preview), StatusAt(l, run, n))
  {
    assert run[..n + 1][..n] == run[..n];
    PruningIsInvisible(l, run, n);
  }

  lemma NewerAppend(q: seq<Prompt>, x: Prompt, cutoff: int)
    ensures Newer(q + [x], cutoff) == Newer(q, cutoff) + if x.at > cutoff then [x] else []
  {
    assert (q + [x])[..|q|] == q;
  }

  /** What the log holds of the key beyond the cutoff: how much, and how much of it with this preview. */
  ghost predicate Holds(log: Prompts, key: Key, preview: int, cutoff: int, count: nat, same: nat) {
    |Newer(QueueOf(log, key), cutoff)| == count && Repeats(Newer(QueueOf(log, key), cutoff), preview) == same
  }

  lemma LoggingCounts(log: Prompts, to: Key, x: Prompt, status: Status, key: Key, preview: int, cutoff: int, count: nat, same: nat)
    requires Holds(log, key, preview, cutoff, count, same)
    ensures var adds := status == Stored && to == key && x.at > cutoff;
            Holds(AfterLogging(log, to, x, status), key, preview, cutoff,
                  count + (if adds then 1 else 0), same + if adds && x.preview == preview then 1 else 0)
  {
    var q := QueueOf(log, key);
    NewerAppend(q, x, cutoff);
    RepeatsAppend(Newer(q, cutoff), x, preview);
    assert Newer(q, cutoff) + [] == Newer(q, cutoff);
  }

  ghost predicate Counted(l: Limits, run: seq<Call>, n: nat, key: Key, preview: int, cutoff: int)
    requires n <= |run|
  {
    Holds(RunLog(l, run[..n]), key, preview, cutoff,
          Recent(l, run, n, key, cutoff), RecentSame(l, run, n, key, preview, cutoff))
  }

  lemma CountedOneMore(l: Limits, run: seq<Call>, n: nat, key: Key, preview: int, cutoff: int)
    requires l.Valid() && ClockForward(run) && n < |run| && Counted(l, run, n, key, preview, cutoff)
    ensures Counted(l, run, n + 1, key, preview, cutoff)
  {
    var c := run[n];
    RunUnfolds(l, run, n);
    LoggingCounts(RunLog(l, run[..n]), c.key, Prompt(c.now, c.preview), StatusAt(l, run, n), key, preview, cutoff,
                  Recent(l, run, n, key, cutoff), RecentSame(l, run, n, key, preview, cutoff));
  }

  lemma {:induction false} LogCounts(l: Limits, run: seq<Call>, n: nat, key: Key, preview: int, cutoff: int)
    requires l.Valid() && ClockForward(run) && n <= |run|
    ensures Counted(l, run, n, key, preview, cutoff)
  {
    if n > 0 {
      LogCounts(l, run, n - 1, key, preview, cutoff);
      CountedOneMore(l, run, n - 1, key, preview, cutoff);
    }
  }

  lemma LoggingAddsKey(log: Prompts, key: Key, x: Prompt, status: Status, cutoff: int)
    ensures LiveKeys(AfterLogging(log, key, x, status), cutoff)
            == LiveKeys(log, cutoff) + if status == Stored && x.at > cutoff then {key} else {}
  {
    NewerAppend(QueueOf(log, key), x, cutoff);
    var after := AfterLogging(log, key, x, status);
    forall k ensures k in LiveKeys(after, cutoff) <==>
                     k in LiveKeys(log, cutoff) || (status == Stored && x.at > cutoff && k == key)
    {
    }
  }

  lemma {:induction false} LogKeys(l: Limits, run: seq<Call>, n: nat, cutoff: int)
    requires l.Valid() && ClockForward(run) && n <= |run|
    ensures LiveKeys(RunLog(l, run[..n]), cutoff) == RecentKeys(l, run, n, cutoff)
  {
    if n > 0 {
      var c := run[n - 1];
      LogKeys(l, run, n - 1, cutoff);
      RunUnfolds(l, run, n - 1);
      LoggingAddsKey(RunLog(l, run[..n - 1]), c.key, Prompt(c.now, c.preview), StatusAt(l, run, n - 1), cutoff);
    }
  }

  /** The window of a call begins just after this time. */
  function WindowStart(l: Limits, c: Call): int {
    c.now - l.window
  }

  /** The answer that the counts of the window demand. */
  function AnswerFor(l: Limits, known: bool, keys: nat, count: nat, same: nat): Status {
    if !known && keys >= l.maxKeys then Full
    else if count >= l.maxPrompts || same >= l.maxRepeats then Fatigue
    else Stored
  }

  lemma DecideIsAnswer(l: Limits, liveKeys: nat, known: bool, q: seq<Prompt>, preview: int)
    ensures Decide(l, liveKeys, known, q, preview) == AnswerFor(l, known, liveKeys, |q|, Repeats(q, preview))
  {
  }

  lemma LoggedAnswer(l: Limits, log: Prompts, c: Call, count: nat, same: nat, keys: set<Key>)
    requires Holds(log, c.key, c.preview, WindowStart(l, c), count, same) && LiveKeys(log, WindowStart(l, c)) == keys
    ensures RecordInLog(l, log, c.key, c.preview, c.now).1 == AnswerFor(l, c.key in keys, |keys|, count, same)
  {
    assert WindowStart(l, c) == l.Cutoff(c.now);
    DecideIsAnswer(l, |keys|, c.key in keys, Newer(QueueOf(log, c.key), l.Cutoff(c.now)), c.preview);
  }

  /**
   Under a forward clock a prompt is refused for want of room exactly when nothing of its key was stored within
   the window and too many other keys have been; refused as fatigue exactly when there is room and its key has
   used up the window's prompts, or its preview the window's repeats; and stored in all other cases.
   */
  lemma AnsweredIff(l: Limits, run: seq<Call>, n: nat)
    requires l.Valid() && ClockForward(run) && n < |run|
    ensures var c := run[n];
            var start := WindowStart(l, c);
            var keys := RecentKeys(l, run, n, start);
            StatusAt(l, run, n)
            == AnswerFor(l, c.key in keys, |keys|, Recent(l, run, n, c.key, start),
                         RecentSame(l, run, n, c.key, c.preview, start))
  {
    var c := run[n];
    var start := WindowStart(l, c);
    PruningIsInvisible(l, run, n);
    LogCounts(l, run, n, c.key, c.preview, start);
    LogKeys(l, run, n, start);
    LoggedAnswer(l, RunLog(l, run[..n]), c, Recent(l, run, n, c.key, start),
                 RecentSame(l, run, n, c.key, c.preview, start), RecentKeys(l, run, n, start));
  }
}
