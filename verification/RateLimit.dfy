/** The in-memory sliding-window limiter. Its pruned, periodically evicted buckets answer exactly as a
 *  log that forgets nothing. Timestamps are reals: rounding of floats is not modelled. */
module RateLimit {
  import opened Common

  type Log = seq<real>

  // ---------- the specification: a log that is never pruned ----------

  /** How many events fall in (lo, hi]. */
  function Count(log: Log, lo: real, hi: real): nat {
    if log == [] then 0
    else Count(log[..|log| - 1], lo, hi) + if lo < log[|log| - 1] <= hi then 1 else 0
  }

  ghost predicate Sorted(log: Log) {
    forall i, j :: 0 <= i < j < |log| ==> log[i] <= log[j]
  }

  ghost predicate UpTo(log: Log, t: real) {
    forall i :: 0 <= i < |log| ==> log[i] <= t
  }

  /** Every event was recorded when fewer than `limit` events lay in the window ending then. */
  ghost predicate Admitted(log: Log, limit: int, window: real) {
    log == [] ||
    (var (most, last) := (log[..|log| - 1], log[|log| - 1]);
     Admitted(most, limit, window) && UpTo(most, last) && Count(most, last - window, last) < limit)
  }

  lemma {:induction false} CountSplit(a: Log, b: Log, lo: real, hi: real)
    ensures Count(a + b, lo, hi) == Count(a, lo, hi) + Count(b, lo, hi)
    decreases |b|
  {
    if b == [] {
      assert a + b == a;
    } else {
      assert (a + b)[..|a + b| - 1] == a + b[..|b| - 1];
      CountSplit(a, b[..|b| - 1], lo, hi);
    }
  }

  lemma {:induction false} CountNone(log: Log, lo: real, hi: real)
    requires forall i :: 0 <= i < |log| ==> log[i] <= lo
    ensures Count(log, lo, hi) == 0
  {
    if log != [] { CountNone(log[..|log| - 1], lo, hi); }
  }

  lemma {:induction false} CountAll(log: Log, lo: real, hi: real)
    requires forall i :: 0 <= i < |log| ==> lo < log[i] <= hi
    ensures Count(log, lo, hi) == |log|
  {
    if log != [] { CountAll(log[..|log| - 1], lo, hi); }
  }

  /** A window that ends earlier but covers everything recorded holds no fewer events. */
  lemma {:induction false} CountNarrows(log: Log, lo: real, hi: real, lo': real, hi': real)
    requires UpTo(log, hi') && lo' <= lo
    ensures Count(log, lo, hi) <= Count(log, lo', hi')
  {
    if log != [] { CountNarrows(log[..|log| - 1], lo, hi, lo', hi'); }
  }

  /** No window of the run, wherever it ends, holds more than `limit` admitted events. */
  lemma {:induction false} EveryWindowBounded(log: Log, limit: int, window: real, t: real)
    requires Admitted(log, limit, window) && limit >= 0
    ensures Count(log, t - window, t) <= limit
  {
    if log != [] {
      var (most, last) := (log[..|log| - 1], log[|log| - 1]);
      EveryWindowBounded(most, limit, window, t);
      if t - window < last <= t { CountNarrows(most, t - window, t, last - window, last); }
    }
  }

  /** One window after its last entry, a log has an empty window. */
  lemma WindowEmpties(log: Log, limit: int, window: real, refused: real, retry: real)
    requires UpTo(log, refused) && retry >= refused + window && limit >= 1
    ensures Count(log, retry - window, retry) < limit
  {
    CountNone(log, retry - window, retry);
  }

  // ---------- one subject: its bucket against its log ----------

  function Of(m: map<string, Log>, subject: string): Log {
    if subject in m then m[subject] else []
  }

  /** The bucket is a tail of the log, and what is missing from it has expired for good. */
  ghost predicate TailOf(log: Log, bucket: Log, cutoff: real) {
    && |bucket| <= |log| && bucket == log[|log| - |bucket|..]
    && UpTo(log[..|log| - |bucket|], cutoff)
  }

  /** `free` subjects were recorded on without enforcing the limit. */
  ghost predicate SubjectOk(log: Log, bucket: Log, latest: real, limit: int, window: real, free: bool) {
    && Sorted(log) && UpTo(log, latest)
    && TailOf(log, bucket, latest - window)
    && (free || Admitted(log, limit, window))
  }

  lemma Later(log: Log, bucket: Log, latest: real, limit: int, window: real, free: bool, now: real)
    requires SubjectOk(log, bucket, latest, limit, window, free) && latest <= now
    ensures SubjectOk(log, bucket, now, limit, window, free)
  {
  }

  /** A pruned bucket holds exactly the events of the window. */
  lemma PrunedCounts(log: Log, history: Log, now: real, window: real)
    requires Sorted(log) && UpTo(log, now) && TailOf(log, history, now - window)
    requires history == [] || history[0] > now - window
    ensures |history| == Count(log, now - window, now)
  {
    var gone := log[..|log| - |history|];
    assert log == gone + history;
    CountSplit(gone, history, now - window, now);
    CountNone(gone, now - window, now);
    forall i | 0 <= i < |history| ensures now - window < history[i] <= now {
      assert history[i] == log[|log| - |history| + i] && history[0] == log[|log| - |history|];
    }
    CountAll(history, now - window, now);
  }

  lemma PopKeepsTail(log: Log, history: Log, cutoff: real)
    requires TailOf(log, history, cutoff) && history != [] && history[0] <= cutoff
    ensures TailOf(log, history[1..], cutoff)
  {
    assert log[..|log| - |history| + 1] == log[..|log| - |history|] + [history[0]];
  }

  lemma AppendOk(log: Log, bucket: Log, now: real, limit: int, window: real, free: bool)
    requires SubjectOk(log, bucket, now, limit, window, free)
    requires free || Count(log, now - window, now) < limit
    ensures SubjectOk(log + [now], bucket + [now], now, limit, window, free)
  {
    assert (log + [now])[..|log + [now]| - 1] == log;
    AppendTail(log, bucket, now, now - window);
  }

  lemma AppendTail(log: Log, bucket: Log, now: real, cutoff: real)
    requires TailOf(log, bucket, cutoff)
    ensures TailOf(log + [now], bucket + [now], cutoff)
  {
    var gone := log[..|log| - |bucket|];
    assert (log + [now])[..|log| - |bucket|] == gone;
    assert log + [now] == gone + (bucket + [now]);
  }

  /** Dropping a bucket whose newest event has expired leaves an empty tail. */
  lemma EvictOk(log: Log, bucket: Log, now: real, limit: int, window: real, free: bool)
    requires SubjectOk(log, bucket, now, limit, window, free)
    requires bucket == [] || bucket[|bucket| - 1] <= now - window
    ensures SubjectOk(log, [], now, limit, window, free)
  {
    forall i | 0 <= i < |log| ensures log[i] <= now - window {
      if i >= |log| - |bucket| {
        assert log[|log| - 1] == bucket[|bucket| - 1];
      } else {
        assert log[i] == log[..|log| - |bucket|][i];
      }
    }
  }

  /** What is left after popping expired timestamps off the front. */
  function Expire(bucket: Log, cutoff: real): Log {
    if bucket != [] && bucket[0] <= cutoff then Expire(bucket[1..], cutoff) else bucket
  }

  lemma {:induction false} ExpireTail(log: Log, bucket: Log, cutoff: real)
    requires TailOf(log, bucket, cutoff)
    ensures TailOf(log, Expire(bucket, cutoff), cutoff)
    ensures Expire(bucket, cutoff) == [] || Expire(bucket, cutoff)[0] > cutoff
    decreases |bucket|
  {
    if bucket != [] && bucket[0] <= cutoff {
      PopKeepsTail(log, bucket, cutoff);
      ExpireTail(log, bucket[1..], cutoff);
    }
  }

  lemma PruneOk(log: Log, bucket: Log, latest: real, limit: int, window: real, free: bool, now: real)
    requires SubjectOk(log, bucket, latest, limit, window, free) && latest <= now
    ensures SubjectOk(log, Expire(bucket, now - window), now, limit, window, free)
    ensures |Expire(bucket, now - window)| == Count(log, now - window, now)
  {
    Later(log, bucket, latest, limit, window, free, now);
    ExpireTail(log, bucket, now - window);
    PrunedCounts(log, Expire(bucket, now - window), now, window);
  }

  type Logs = map<string, Log>

  ghost predicate OkFor(full: Logs, events: Logs, latest: real, limit: int, window: real, tracked: set<string>, s: string) {
    SubjectOk(Of(full, s), Of(events, s), latest, limit, window, s in tracked)
  }

  /** Every bucket answers for its log. */
  ghost predicate AllOk(full: Logs, events: Logs, latest: real, limit: int, window: real, tracked: set<string>) {
    forall s :: OkFor(full, events, latest, limit, window, tracked, s)
  }

  lemma PruneAll(full: Logs, events: Logs, latest: real, limit: int, window: real, tracked: set<string>,
                 subject: string, now: real)
    requires AllOk(full, events, latest, limit, window, tracked) && latest <= now
    ensures
      var history := Expire(Of(events, subject), now - window);
      && AllOk(full, events[subject := history], now, limit, window, tracked)
      && |history| == Count(Of(full, subject), now - window, now)
  {
    var events' := events[subject := Expire(Of(events, subject), now - window)];
    forall s ensures OkFor(full, events', now, limit, window, tracked, s) {
      assert OkFor(full, events, latest, limit, window, tracked, s);
      if s == subject { PruneOk(Of(full, s), Of(events, s), latest, limit, window, s in tracked, now); }
      else { Later(Of(full, s), Of(events, s), latest, limit, window, s in tracked, now); }
    }
    assert OkFor(full, events, latest, limit, window, tracked, subject);
    PruneOk(Of(full, subject), Of(events, subject), latest, limit, window, subject in tracked, now);
  }

  lemma EvictAll(full: Logs, events: Logs, now: real, limit: int, window: real, tracked: set<string>, dead: set<string>)
    requires AllOk(full, events, now, limit, window, tracked)
    requires forall s :: s in dead && s in events ==> events[s] == [] || events[s][|events[s]| - 1] <= now - window
    ensures AllOk(full, events - dead, now, limit, window, tracked)
  {
    forall s ensures OkFor(full, events - dead, now, limit, window, tracked, s) {
      assert OkFor(full, events, now, limit, window, tracked, s);
      if s in dead && s in events { EvictOk(Of(full, s), Of(events, s), now, limit, window, s in tracked); }
      else { assert Of(events - dead, s) == Of(events, s); }
    }
  }

  lemma AppendAll(full: Logs, events: Logs, now: real, limit: int, window: real, tracked: set<string>, subject: string)
    requires AllOk(full, events, now, limit, window, tracked)
    requires subject in tracked || Count(Of(full, subject), now - window, now) < limit
    ensures AllOk(full[subject := Of(full, subject) + [now]], events[subject := Of(events, subject) + [now]],
                  now, limit, window, tracked)
  {
    var (full', events') := (full[subject := Of(full, subject) + [now]], events[subject := Of(events, subject) + [now]]);
    forall s ensures OkFor(full', events', now, limit, window, tracked, s) {
      assert OkFor(full, events, now, limit, window, tracked, s);
      if s == subject { AppendOk(Of(full, s), Of(events, s), now, limit, window, s in tracked); }
      else { assert Of(full', s) == Of(full, s) && Of(events', s) == Of(events, s); }
    }
  }

  lemma TrackAll(full: Logs, events: Logs, now: real, limit: int, window: real, tracked: set<string>, subject: string)
    requires AllOk(full, events, now, limit, window, tracked)
    ensures AllOk(full, events, now, limit, window, tracked + {subject})
  {
    forall s ensures OkFor(full, events, now, limit, window, tracked + {subject}, s) {
      assert OkFor(full, events, now, limit, window, tracked, s);
    }
  }

  // ---------- the limiter ----------

  const SWEEP_EVERY: nat := 1024

  datatype Use = Checks(subject: string, at: real) | Tracks(subject: string, cap: Option<int>, at: real) | Enforces(subject: string, at: real)

  class SlidingWindowRateLimiter {
    const limit: int
    const window: int
    var events: map<string, Log>
    var ops: nat

    /** Everything ever recorded, per subject; the latest clock reading; the subjects `Track` was used on. */
    ghost var full: map<string, Log>
    ghost var latest: real
    ghost var tracked: set<string>

    ghost predicate Valid()
      reads this
    {
      AllOk(full, events, latest, limit, window as real, tracked)
    }

    constructor (limit: int, window: int, start: real)
      ensures Valid() && this.limit == limit && this.window == window && latest == start
      ensures full == map[] && tracked == {}
    {
      this.limit, this.window, events, ops := limit, window, map[], 0;
      full, latest, tracked := map[], start, {};
    }

    /** Events of the window ending now, by the full log. */
    ghost function InWindow(subject: string, now: real): nat
      reads this
    {
      Count(Of(full, subject), now - window as real, now)
    }

    /** Drop expired timestamps from the front of the subject's bucket. */
    method Prune(subject: string, now: real) returns (history: Log)
      requires Valid() && latest <= now
      modifies this`events, this`latest
      ensures Valid() && latest == now && subject in events && events[subject] == history
      ensures |history| == InWindow(subject, now)
    {
      history := if subject in events then events[subject] else [];
      ghost var bucket := history;
      var cutoff := now - window as real;
      while history != [] && history[0] <= cutoff
        invariant Expire(history, cutoff) == Expire(bucket, cutoff)
      {
        history := history[1..];
      }
      PruneAll(full, events, latest, limit, window as real, tracked, subject, now);
      latest := now;
      events := events[subject := history];
    }

    /** Every 1024th call evicts the buckets whose newest event has expired. */
    method MaybeSweep(now: real)
      requires Valid() && latest == now
      modifies this`events, this`ops
      ensures Valid() && ops == old(ops) + 1
      ensures ops % 1024 != 0 ==> events == old(events)
      ensures ops % 1024 == 0 ==>
                forall s :: s in events ==> events[s] != [] && events[s][|events[s]| - 1] > now - window as real
    {
      ops := ops + 1;
      if ops % SWEEP_EVERY != 0 { return; }
      var cutoff := now - window as real;
      var dead := set s | s in events && (events[s] == [] || events[s][|events[s]| - 1] <= cutoff);
      EvictAll(full, events, now, limit, window as real, tracked, dead);
      events := events - dead;
    }

    /** Record one event in the bucket and in the full log. */
    method Append(subject: string, now: real)
      requires Valid() && latest == now && subject in events
      requires subject in tracked || InWindow(subject, now) < limit
      modifies this`events, this`full
      ensures Valid() && full == old(full)[subject := Of(old(full), subject) + [now]]
      ensures subject in events && events[subject] == old(events)[subject] + [now]
    {
      AppendAll(full, events, now, limit, window as real, tracked, subject);
      events := events[subject := events[subject] + [now]];
      full := full[subject := Of(full, subject) + [now]];
    }

    /** Refuse when the window is full, else record: exactly as the unpruned log would. */
    method Check(subject: string, now: real) returns (admitted: bool)
      requires Valid() && latest <= now
      modifies this
      ensures Valid() && latest == now && tracked == old(tracked)
      ensures admitted <==> old(InWindow(subject, now)) < limit
      ensures full == if admitted then old(full)[subject := Of(old(full), subject) + [now]] else old(full)
    {
      var history := Prune(subject, now);
      if |history| >= limit { return false; }
      Append(subject, now);
      MaybeSweep(now);
      admitted := true;
    }

    /** Record without enforcing; the answer is what would remain of `cap`, or of the limit. */
    method Track(subject: string, cap: Option<int>, now: real) returns (remaining: int)
      requires Valid() && latest <= now
      modifies this
      ensures Valid() && latest == now && tracked == old(tracked) + {subject}
      ensures full == old(full)[subject := Of(old(full), subject) + [now]]
      ensures var room := (if cap.Some? then cap.value else limit) - (old(InWindow(subject, now)) + 1);
              remaining == if room > 0 then room else 0
    {
      var history := Prune(subject, now);
      TrackAll(full, events, now, limit, window as real, tracked, subject);
      tracked := tracked + {subject};
      Append(subject, now);
      var room := (if cap.Some? then cap.value else limit) - (|history| + 1);
      MaybeSweep(now);
      remaining := if room > 0 then room else 0;
    }

    /** Check, and answer how many more would be admitted now; None is the 429. */
    method Enforce(subject: string, now: real) returns (remaining: Option<int>)
      requires Valid() && latest <= now
      modifies this
      ensures Valid() && latest == now && tracked == old(tracked)
      ensures remaining.Some? <==> old(InWindow(subject, now)) < limit
      ensures remaining.Some? ==> remaining.value == limit - (old(InWindow(subject, now)) + 1)
      ensures full == if remaining.Some? then old(full)[subject := Of(old(full), subject) + [now]] else old(full)
    {
      var history := Prune(subject, now);
      if |history| >= limit { return None; }
      Append(subject, now);
      var room := limit - (|history| + 1);
      MaybeSweep(now);
      remaining := Some(if room > 0 then room else 0);
    }

    /** One call by some subject. */
    method Call(use: Use)
      requires Valid() && latest <= use.at
      modifies this
      ensures Valid() && latest == use.at
      ensures forall s :: s != use.subject ==> Of(full, s) == Of(old(full), s)
    {
      match use
      case Checks(subject, at) => var admitted := Check(subject, at);
      case Tracks(subject, cap, at) => var remaining := Track(subject, cap, at);
      case Enforces(subject, at) => var remaining := Enforce(subject, at);
    }

    /** What `retry_after` promises: a caller that was refused and comes back alone after that many seconds or more is
     *  admitted, whatever other subjects' calls and sweeps did in between. */
    method RetryAfterRefusal(subject: string, now: real, others: seq<Use>, retry: real) returns (first: bool, second: bool)
      requires Valid() && latest <= now <= retry && limit >= 1 && retry >= now + window as real
      requires forall i :: 0 <= i < |others| ==> others[i].subject != subject && now <= others[i].at <= retry
      requires forall i, j :: 0 <= i < j < |others| ==> others[i].at <= others[j].at
      modifies this
      ensures Valid() && (!first ==> second)
    {
      first := Check(subject, now);
      ghost var log := Of(full, subject);
      SubjectUpTo(subject);
      for k := 0 to |others|
        invariant Valid() && latest <= retry && Of(full, subject) == log
        invariant latest <= (if k < |others| then others[k].at else retry)
      {
        Call(others[k]);
      }
      WindowEmpties(log, limit, window as real, now, retry);
      second := Check(subject, retry);
    }

    lemma SubjectUpTo(subject: string)
      requires Valid()
      ensures UpTo(Of(full, subject), latest)
    {
      assert OkFor(full, events, latest, limit, window as real, tracked, subject);
    }

    /** Whatever was called and swept, a subject never merely tracked is within the limit in every window. */
    lemma NeverOverLimit(subject: string, t: real)
      requires Valid() && subject !in tracked && limit >= 0
      ensures Count(Of(full, subject), t - window as real, t) <= limit
    {
      assert OkFor(full, events, latest, limit, window as real, tracked, subject);
      EveryWindowBounded(Of(full, subject), limit, window as real, t);
    }
  }
}
