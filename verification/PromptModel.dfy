/** Specification of the approval-prompt limiter: a pruned queue per key, against a log that forgets nothing. */
module PromptModel {
  import opened Wrappers

  type Key = int
  datatype Prompt = Prompt(at: int, preview: int)
  type Prompts = map<Key, seq<Prompt>>

  datatype Limits = Limits(window: nat, maxPrompts: nat, maxRepeats: nat, maxKeys: nat)
  {
    /** What the approval policy's validator demands. */
    predicate Valid() {
      1 <= window && 1 <= maxPrompts && 1 <= maxRepeats && 1 <= maxKeys
    }

    /** Prompts at or before this time no longer count at `now`. */
    function Cutoff(now: int): int {
      now - window
    }
  }

  datatype Status = Stored | Fatigue | Full

  /** Drop expired prompts from the front, stopping at the first that is not. */
  function PruneFront(q: seq<Prompt>, cutoff: int): seq<Prompt> {
    if q != [] && q[0].at <= cutoff then PruneFront(q[1..], cutoff) else q
  }

  function Prune(prompts: Prompts, cutoff: int): Prompts {
    map k | k in prompts && PruneFront(prompts[k], cutoff) != [] :: PruneFront(prompts[k], cutoff)
  }

  function Repeats(q: seq<Prompt>, preview: int): nat {
    if q == [] then 0 else Repeats(q[..|q| - 1], preview) + if q[|q| - 1].preview == preview then 1 else 0
  }

  function QueueOf(prompts: Prompts, key: Key): seq<Prompt> {
    if key in prompts then prompts[key] else []
  }

  predicate TooMany(l: Limits, q: seq<Prompt>, preview: int) {
    |q| >= l.maxPrompts || Repeats(q, preview) >= l.maxRepeats
  }

  /** The answer, given how many keys are live and what the key's own queue holds. */
  function Decide(l: Limits, liveKeys: nat, known: bool, q: seq<Prompt>, preview: int): Status {
    if !known && liveKeys >= l.maxKeys then Full
    else if TooMany(l, q, preview) then Fatigue
    else Stored
  }

  /** A queue is created before its limits are looked at, and kept when they refuse. */
  function AfterRecord(live: Prompts, key: Key, x: Prompt, status: Status): Prompts {
    match status
    case Full => live
    case Fatigue => live[key := QueueOf(live, key)]
    case Stored => live[key := QueueOf(live, key) + [x]]
  }

  function Record(l: Limits, prompts: Prompts, key: Key, preview: int, now: int): (Prompts, Status) {
    var live := Prune(prompts, l.Cutoff(now));
    var status := Decide(l, |live|, key in live, QueueOf(live, key), preview);
    (AfterRecord(live, key, Prompt(now, preview), status), status)
  }

  /******* The log *******/

  /** Every prompt of the log newer than the cutoff, wherever it stands. */
  function Newer(q: seq<Prompt>, cutoff: int): seq<Prompt> {
    if q == [] then []
    else Newer(q[..|q| - 1], cutoff) + if q[|q| - 1].at > cutoff then [q[|q| - 1]] else []
  }

  function LiveKeys(log: Prompts, cutoff: int): set<Key> {
    set k | k in log && Newer(log[k], cutoff) != []
  }

  function AfterLogging(log: Prompts, key: Key, x: Prompt, status: Status): Prompts {
    if status == Stored then log[key := QueueOf(log, key) + [x]] else log
  }

  function RecordInLog(l: Limits, log: Prompts, key: Key, preview: int, now: int): (Prompts, Status) {
    var keys := LiveKeys(log, l.Cutoff(now));
    var status := Decide(l, |keys|, key in keys, Newer(QueueOf(log, key), l.Cutoff(now)), preview);
    (AfterLogging(log, key, Prompt(now, preview), status), status)
  }

  /******* Runs *******/

  datatype Call = Call(key: Key, preview: int, now: int)

  function Run(l: Limits, run: seq<Call>): Prompts {
    if run == [] then map[] else
      var c := run[|run| - 1];
      Record(l, Run(l, run[..|run| - 1]), c.key, c.preview, c.now).0
  }

  function RunLog(l: Limits, run: seq<Call>): Prompts {
    if run == [] then map[] else
      var c := run[|run| - 1];
      RecordInLog(l, RunLog(l, run[..|run| - 1]), c.key, c.preview, c.now).0
  }

  function StatusAt(l: Limits, run: seq<Call>, i: nat): Status
    requires i < |run|
  {
    Record(l, Run(l, run[..i]), run[i].key, run[i].preview, run[i].now).1
  }

  /** The clock of the calls never goes back. */
  ghost predicate ClockForward(run: seq<Call>) {
    forall i, j :: 0 <= i < j < |run| ==> run[i].now <= run[j].now
  }
}
