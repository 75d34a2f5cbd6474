/** The times of claim events: whether the newest by time is the newest by insertion. */
module ClaimTimes {
  import opened Common
  import opened Tables
  import opened Protocol
  import opened Claims
  import AckSafety

  /** No claim event of the row is later than the claim that holds it. */
  ghost predicate HolderIsLatest(row: Message) {
    row.claimedAt.Some? && forall e :: e in row.log && e.kind.ClaimEvent? ==> e.at <= row.claimedAt.value
  }

  ghost predicate AllUpTo(times: seq<Time>, t: Time) { forall i :: 0 <= i < |times| ==> times[i] <= t }

  lemma {:induction false} TimesOfLog(log: seq<Event>, t: Time)
    ensures AllUpTo(ClaimTimes(log), t) <==> forall e :: e in log && e.kind.ClaimEvent? ==> e.at <= t
  {
    if log != [] {
      var (most, last) := (log[..|log| - 1], log[|log| - 1]);
      TimesOfLog(most, t);
      assert log == most + [last];
      var (a, b) := (ClaimTimes(most), ClaimTimes(log));
      assert forall i :: 0 <= i < |a| ==> b[i] == a[i];
      if last.kind.ClaimEvent? { assert b[|a|] == last.at; }
    }
  }

  lemma {:induction false} NewestIsLast(log: seq<Event>)
    ensures NewestClaim(log).Some? ==> ClaimTimes(log) != [] && ClaimTimes(log)[|ClaimTimes(log)| - 1] == NewestClaim(log).value.1
  {
    if log != [] { NewestIsLast(log[..|log| - 1]); }
  }

  /** The times of the grants of a message, in the order they were granted. */
  function GrantTimes(h: seq<Entry>, m: MessageId): seq<Time> {
    if h == [] then []
    else
      var e := h[|h| - 1].what;
      GrantTimes(h[..|h| - 1], m) + if e.Granted? && e.m == m then [e.at] else []
  }

  lemma {:induction false} TimesReplayed(h: seq<Entry>, m: MessageId)
    ensures Replay(h, m).times == GrantTimes(h, m)
  {
    if h != [] { TimesReplayed(h[..|h| - 1], m); }
  }

  /** Exactly when ordering claim events by time puts the holder's last: the claim that holds the message captured its
   *  time no earlier than any claim granted before it did. */
  lemma HolderIsLatestIff(run: seq<Label>, m: MessageId)
    requires m in Exec(START, run).db.messages && Exec(START, run).db.messages[m].holder.Some?
    ensures
      var w := Exec(START, run);
      var times := GrantTimes(w.history, m);
      && times != [] && w.db.messages[m].claimedAt == Some(times[|times| - 1])
      && (HolderIsLatest(w.db.messages[m]) <==> AllUpTo(times, times[|times| - 1]))
  {
    var w := Exec(START, run);
    Claims.Reachable(run);
    assert RowOk(w.db, Replay(w.history, m), m);
    TimesReplayed(w.history, m);
    NewestIsLast(w.db.messages[m].log);
    TimesOfLog(w.db.messages[m].log, w.db.messages[m].claimedAt.value);
  }

  // ---------- one request at a time ----------

  lemma GrantSnoc(h: seq<Entry>, e: Entry, m: MessageId)
    ensures GrantTimes(h + [e], m) == GrantTimes(h, m) + if e.what.Granted? && e.what.m == m then [e.what.at] else []
  {
    assert (h + [e])[..|h + [e]| - 1] == h;
  }

  lemma NoGrant(w: World, l: Label, m: MessageId)
    requires !l.ClaimWrite?
    ensures GrantTimes(Next(w, l).history, m) == GrantTimes(w.history, m) && w.db.now <= Next(w, l).db.now
  {
    var next := Next(w, l);
    if l.Do? { PerformNoGrant(w, l.op); } else { RequestNoGrant(w, l); }
    if next.history != w.history { GrantSnoc(w.history, next.history[|w.history|], m); }
  }

  ghost predicate LogsNoGrant(w: World, next: World) {
    && w.db.now <= next.db.now
    && (next.history == w.history
        || (|next.history| == |w.history| + 1 && next.history == w.history + [next.history[|w.history|]]
            && !next.history[|w.history|].what.Granted?))
  }

  lemma PerformNoGrant(w: World, op: Op)
    ensures LogsNoGrant(w, Perform(w, op))
  {
  }

  lemma RequestNoGrant(w: World, l: Label)
    requires !l.Do? && !l.ClaimWrite?
    ensures LogsNoGrant(w, Next(w, l))
  {
    if !Removing(l) && !l.SweepNext? { ReadsQuiet(w, l); }
  }

  lemma {:induction false} CalmGrants(w: World, run: seq<Label>, m: MessageId)
    requires forall l :: l in run ==> !l.ClaimWrite?
    ensures GrantTimes(Exec(w, run).history, m) == GrantTimes(w.history, m) && w.db.now <= Exec(w, run).db.now
  {
    if run != [] {
      var most := run[..|run| - 1];
      forall l | l in most ensures !l.ClaimWrite? { assert l in run; }
      CalmGrants(w, most, m);
      assert run[|run| - 1] in run;
      NoGrant(Exec(w, most), run[|run| - 1], m);
    }
  }

  /** The last grant is the latest, and none is from the future. */
  ghost predicate LastLatest(w: World, m: MessageId) {
    var times := GrantTimes(w.history, m);
    AllUpTo(times, w.db.now) && (times != [] ==> AllUpTo(times, times[|times| - 1]))
  }

  lemma UpToSnoc(times: seq<Time>, now: Time, later: Time)
    requires AllUpTo(times, now) && now <= later
    ensures AllUpTo(times, later) && AllUpTo(times + [now], later) && AllUpTo(times + [now], now)
  {
  }

  lemma GrantLatest(w: World, end: World, req: ClaimRequest, m: MessageId)
    requires LastLatest(w, m) && w.db.now <= end.db.now
    requires end.history == w.history
             || (req.m in w.db.messages && end.history == w.history + [Entry(w.db.now, Grant(w.db, req, w.db.now))])
    ensures LastLatest(end, m)
  {
    UpToSnoc(GrantTimes(w.history, m), w.db.now, end.db.now);
    if end.history != w.history {
      var e := Entry(w.db.now, Grant(w.db, req, w.db.now));
      GrantSnoc(w.history, e, m);
      assert req.m == m ==> GrantTimes(end.history, m) == GrantTimes(w.history, m) + [w.db.now];
      assert req.m != m ==> GrantTimes(end.history, m) == GrantTimes(w.history, m);
    }
  }

  lemma ClaimLatest(w: World, r: RequestId, req: ClaimRequest, m: MessageId)
    requires Settled(w) && LastLatest(w, m)
    ensures LastLatest(Exec(w, Steps(Claim(r, req))), m)
  {
    if r in w.requests {
      ClaimBlocked(w, r, req);
    } else {
      ClaimIsWhole(w, r, req);
      GrantLatest(w, Exec(w, Steps(Claim(r, req))), req, m);
    }
  }

  lemma CalmLatest(w: World, run: seq<Label>, m: MessageId)
    requires LastLatest(w, m) && forall l :: l in run ==> !l.ClaimWrite?
    ensures LastLatest(Exec(w, run), m)
  {
    CalmGrants(w, run, m);
    UpToSnoc(GrantTimes(w.history, m), w.db.now, Exec(w, run).db.now);
  }

  lemma CalmSteps(x: Whole)
    requires !x.Claim?
    ensures forall l :: l in Steps(x) ==> !l.ClaimWrite?
  {
    if x.Sweep? { InRepeat(SweepNext(x.r), |x.order| + 1); }
  }

  lemma WholeLatest(w: World, x: Whole, m: MessageId)
    requires Settled(w) && LastLatest(w, m)
    ensures LastLatest(Exec(w, Steps(x)), m)
  {
    if x.Claim? {
      ClaimLatest(w, x.r, x.req, m);
    } else {
      CalmSteps(x);
      CalmLatest(w, Steps(x), m);
    }
  }

  lemma {:induction false} AllLatest(xs: seq<Whole>, m: MessageId)
    ensures LastLatest(Exec(START, Flatten(xs)), m)
  {
    if xs != [] {
      var most := xs[..|xs| - 1];
      AllLatest(most, m);
      AllSettled(most);
      WholeLatest(Exec(START, Flatten(most)), xs[|xs| - 1], m);
      ExecAppend(START, Flatten(most), Steps(xs[|xs| - 1]));
    }
  }

  /** With requests one at a time the holder's claim event is the newest by time as well. */
  lemma HolderIsLatestOneAtATime(xs: seq<Whole>, m: MessageId)
    requires m in Exec(START, Flatten(xs)).db.messages && Exec(START, Flatten(xs)).db.messages[m].holder.Some?
    ensures HolderIsLatest(Exec(START, Flatten(xs)).db.messages[m])
  {
    AllLatest(xs, m);
    HolderIsLatestIff(Flatten(xs), m);
  }

  // ---------- a claim that captured its time before another was granted ----------

  /** Past its decision, a claim of an unclaimed message will write the time it has captured. */
  lemma Decided(w: World, r: RequestId, req: ClaimRequest) returns (run: seq<Label>, next: World)
    requires r !in w.requests && Claimable(w, req)
    ensures next == Exec(w, run) && next == Answered(w, r, AtUpdate(req, None, w.db.now))
  {
    var seen := w.db.messages[req.m];
    run := [ClaimStart(r, req), ClaimChannel(r)] + [ClaimCheck(r)];
    ExecAppend(w, [ClaimStart(r, req), ClaimChannel(r)], [ClaimCheck(r)]);
    ExecTwo(w, ClaimStart(r, req), ClaimChannel(r));
    var w1 := Answered(w, r, AtChannel(req, seen));
    assert Next(w, ClaimStart(r, req)) == w1;
    var w2 := Answered(w, r, AtDecision(req, seen));
    assert Next(w1, ClaimChannel(r)).requests == w2.requests;
    ExecOne(w2, ClaimCheck(r));
    next := Answered(w, r, AtUpdate(req, None, w.db.now));
    assert Next(w2, ClaimCheck(r)).requests == next.requests;
  }

  /** A plain claim that would be granted. */
  ghost predicate Claimable(w: World, req: ClaimRequest) {
    && req.m in w.db.messages && req.allowed && req.lease.None?
    && var row := w.db.messages[req.m];
       row.holder.None? && row.expiresAt > w.db.now && row.channel in w.db.channels && w.db.channels[row.channel].mode.Claimable?
  }

  lemma ClaimedAndReleased(w: World, r: RequestId, req: ClaimRequest) returns (run: seq<Label>, next: World)
    requires r !in w.requests && Claimable(w, req)
    ensures next == Exec(w, run) && req.m in next.db.messages && next.db.messages[req.m].holder.None?
    ensures next.db.messages[req.m].log == w.db.messages[req.m].log + [Event(ClaimEvent, req.actor, w.db.now, None)]
    ensures next.requests == w.requests[r := Finished(Claimed)]
  {
    ClaimIsWhole(w, r, req);
    var claimed := Exec(w, Steps(Claim(r, req)));
    GrantedRow(w.db, req);
    run := Steps(Claim(r, req)) + [Do(GiveBack(req.m, req.actor, true))];
    ExecAppend(w, Steps(Claim(r, req)), [Do(GiveBack(req.m, req.actor, true))]);
    ExecOne(claimed, Do(GiveBack(req.m, req.actor, true)));
    next := Next(claimed, Do(GiveBack(req.m, req.actor, true)));
  }

  lemma Later(w: World, m: MessageId) returns (next: World)
    requires m in w.db.messages
    ensures next == Exec(w, [Do(Tick(1))]) && next == w.(db := w.db.(now := w.db.now + 1))
  {
    ExecOne(w, Do(Tick(1)));
    next := Next(w, Do(Tick(1)));
  }

  lemma StaleWrite(w: World, r: RequestId, req: ClaimRequest, at: Time) returns (end: World)
    requires Pending(w, r) == Some(AtUpdate(req, None, at)) && req.m in w.db.messages && w.db.messages[req.m].holder.None?
    ensures end == Exec(w, [ClaimWrite(r)]) && req.m in end.db.messages
    ensures end.db.messages[req.m].holder == Some(req.actor) && end.db.messages[req.m].claimedAt == Some(at)
    ensures end.db.messages[req.m].log == w.db.messages[req.m].log + [Event(ClaimEvent, req.actor, at, None)]
  {
    ExecOne(w, ClaimWrite(r));
    end := Next(w, ClaimWrite(r));
  }

  /** The condition can fail: a claim captures its time, another is granted a moment later and released, and the first
   *  is then granted with the earlier time. The newest claim event by time names the other actor. */
  lemma StaleTimeHolds(w: World, r1: RequestId, r2: RequestId, first: ClaimRequest, second: ClaimRequest)
    returns (run: seq<Label>, end: World)
    requires r1 != r2 && r1 !in w.requests && r2 !in w.requests && first.m == second.m
    requires Claimable(w, first) && second.allowed && second.lease.None? && w.db.messages[first.m].expiresAt > w.db.now + 1
    ensures end == Exec(w, run) && first.m in end.db.messages
    ensures var row := end.db.messages[first.m];
            && row.holder == Some(first.actor) && row.claimedAt == Some(w.db.now)
            && Event(ClaimEvent, second.actor, w.db.now + 1, None) in row.log && !HolderIsLatest(row)
  {
    var m := first.m;
    var a, w1 := Decided(w, r1, first);
    var w2 := Later(w1, m);
    var b, w3 := ClaimedAndReleased(w2, r2, second);
    end := StaleWrite(w3, r1, first, w.db.now);
    ExecAppend(w, a, [Do(Tick(1))]);
    ExecAppend(w, a + [Do(Tick(1))], b);
    ExecAppend(w, a + [Do(Tick(1))] + b, [ClaimWrite(r1)]);
    run := a + [Do(Tick(1))] + b + [ClaimWrite(r1)];
    var e := Event(ClaimEvent, second.actor, w.db.now + 1, None);
    assert w3.db.messages[m].log[|w3.db.messages[m].log| - 1] == e;
    assert e in end.db.messages[m].log;
  }

  /** Such a world is reachable. */
  lemma StaleTimeReachable() returns (run: seq<Label>, w: World)
    ensures w == Exec(START, run) && w.requests == map[]
    ensures Claimable(w, ClaimRequest(0, "ann", "key-a", true, None)) && w.db.messages[0].expiresAt > w.db.now + 1
  {
    run, w := AckSafety.JobPosted();
  }
}
