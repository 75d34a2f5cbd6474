/** What an acknowledgement protects, exactly; and the agreement of the two lease recovery paths. */
module AckSafety {
  import opened Common
  import opened Tables
  import opened Protocol
  import Claims

  // ---------- foreign keys, needed to replay a request that is still in flight ----------

  ghost predicate SeenOk(db: Db, req: ClaimRequest, seen: Message) {
    req.m < db.nextMessage && (req.m in db.messages ==> seen.channel == db.messages[req.m].channel)
  }

  ghost predicate Linked(w: World) {
    && RowsLinked(w.db)
    && (forall r :: r in w.requests && w.requests[r].AtChannel? ==> SeenOk(w.db, w.requests[r].req, w.requests[r].seen))
  }

  ghost predicate RowsLinked(db: Db) {
    forall m :: m in db.messages ==> m < db.nextMessage && db.messages[m].channel in db.channels
  }

  predicate OnOneRow(op: Op) { op.Pulse? || op.GiveBack? || op.Acknowledge? }

  ghost predicate KeepsLinks(was: Db, db: Db) {
    && RowsLinked(db) && was.nextMessage <= db.nextMessage
    && (forall m :: m in db.messages ==>
          if m in was.messages then db.messages[m].channel == was.messages[m].channel else m >= was.nextMessage)
  }

  lemma OneRowLinked(w: World, op: Op)
    requires RowsLinked(w.db) && OnOneRow(op)
    ensures KeepsLinks(w.db, Perform(w, op).db)
  {
  }

  /** A one-step request keeps every row in an existing channel and moves none to another. */
  lemma PerformLinked(w: World, op: Op)
    requires RowsLinked(w.db)
    ensures KeepsLinks(w.db, Perform(w, op).db)
  {
    if OnOneRow(op) { OneRowLinked(w, op); }
  }

  lemma RemovalLinked(w: World, l: Label)
    requires Linked(w) && Removing(l)
    ensures Linked(Next(w, l))
  {
  }

  lemma RequestLinked(w: World, l: Label)
    requires Linked(w) && !l.Do? && !Removing(l)
    ensures Linked(Next(w, l))
  {
  }

  lemma NextLinked(w: World, l: Label)
    requires Linked(w)
    ensures Linked(Next(w, l))
  {
    if l.Do? {
      var next := Perform(w, l.op);
      PerformLinked(w, l.op);
      PerformRequests(w, l.op);
      assert forall r :: r in next.requests && next.requests[r].AtChannel?
                         ==> SeenOk(w.db, next.requests[r].req, next.requests[r].seen);
    } else {
      if Removing(l) { RemovalLinked(w, l); } else { RequestLinked(w, l); }
    }
  }

  ghost predicate Good(w: World) { Claims.Inv(w) && Linked(w) }

  lemma {:induction false} RunGood(w: World, run: seq<Label>)
    requires Good(w)
    ensures Good(Exec(w, run))
  {
    if run != [] {
      RunGood(w, run[..|run| - 1]);
      Claims.NextKeeps(Exec(w, run[..|run| - 1]), run[|run| - 1]);
      NextLinked(Exec(w, run[..|run| - 1]), run[|run| - 1]);
    }
  }

  // ---------- who can still take an acked message from its holder ----------

  ghost predicate AckedHold(db: Db, m: MessageId, actor: Actor, at: Time) {
    m in db.messages && db.messages[m].holder == Some(actor) && db.messages[m].claimedAt == Some(at) && Acked(db.messages[m].log)
  }

  /** A request in flight that got past the point where the ack would have stopped it. */
  ghost predicate Threat(db: Db, q: Request, m: MessageId)
    requires m in db.messages
  {
    var row := db.messages[m];
    match q
    case AtChannel(req, seen) => req.m == m && seen.holder.None? && req.allowed && row.leaseEnd.Some?
    case AtDecision(req, seen) => req.m == m && seen.holder.None? && row.leaseEnd.Some?
    case AtUpdate(req, _, at) => req.m == m && LeaseExpired(row, at)
    case Sweeping(cutoff, todo, _) => m in todo && LeaseExpired(row, cutoff)
    case _ => false
  }

  ghost predicate Threatened(w: World, m: MessageId)
    requires m in w.db.messages
  {
    exists r :: r in w.requests && Threat(w.db, w.requests[r], m)
  }

  predicate GivesBack(l: Label, m: MessageId, actor: Actor) {
    l.Do? && l.op.GiveBack? && l.op.m == m && l.op.actor == actor
  }

  /** `m` is gone, or is held by `actor` with no request in flight that could take it away. */
  ghost predicate Shielded(w: World, m: MessageId, actor: Actor, at: Time) {
    m < w.db.nextMessage && (m in w.db.messages ==> AckedHold(w.db, m, actor, at) && !Threatened(w, m))
  }

  /** No entry of the history from `from` on claims, sweeps or clears `m`. */
  ghost predicate Undisturbed(h: seq<Entry>, from: nat, m: MessageId) {
    forall j :: from <= j < |h| ==> !Claims.Supersedes(h[j].what, m)
  }

  ghost predicate KeepsHold(was: Db, db: Db, m: MessageId, actor: Actor, at: Time)
    requires m in was.messages
  {
    m in db.messages ==>
      && AckedHold(db, m, actor, at)
      && (db.messages[m].leaseEnd == was.messages[m].leaseEnd
          || (was.messages[m].leaseEnd.Some? && db.messages[m].leaseEnd.Some?
              && was.now < db.messages[m].leaseEnd.value))
  }

  lemma OneRowKeepsHold(w: World, op: Op, m: MessageId, actor: Actor, at: Time)
    requires AckedHold(w.db, m, actor, at) && OnOneRow(op) && !GivesBack(Do(op), m, actor)
    requires w.db.messages[m].token.None? <==> w.db.messages[m].leaseEnd.None?
    ensures KeepsHold(w.db, Perform(w, op).db, m, actor, at)
  {
    if op.Acknowledge? { Claims.LogSnoc(w.db.messages[m].log, Event(AckEvent, op.actor, w.db.now, None)); }
  }

  /** The effect of a one-step request on an acked, held row: it is removed, or it keeps its holder. */
  lemma PerformKeepsHold(w: World, op: Op, m: MessageId, actor: Actor, at: Time)
    requires AckedHold(w.db, m, actor, at) && m < w.db.nextMessage && !GivesBack(Do(op), m, actor)
    requires w.db.messages[m].token.None? <==> w.db.messages[m].leaseEnd.None?
    ensures KeepsHold(w.db, Perform(w, op).db, m, actor, at)
  {
    if OnOneRow(op) { OneRowKeepsHold(w, op, m, actor, at); }
  }

  /** No one-step request supersedes anything. */
  ghost predicate Mild(w: World, next: World, m: MessageId) {
    && w.db.now <= next.db.now && w.db.nextMessage <= next.db.nextMessage
    && (m !in w.db.messages ==> m !in next.db.messages)
    && Undisturbed(next.history, |w.history|, m)
  }

  lemma OneRowLogs(w: World, op: Op, m: MessageId)
    requires m < w.db.nextMessage && OnOneRow(op)
    ensures Mild(w, Perform(w, op), m)
  {
  }

  lemma TableLogs(w: World, op: Op, m: MessageId)
    requires m < w.db.nextMessage && !OnOneRow(op)
    ensures Mild(w, Perform(w, op), m)
  {
  }

  lemma PerformLogs(w: World, op: Op, m: MessageId)
    requires m < w.db.nextMessage
    ensures Mild(w, Perform(w, op), m)
  {
    if OnOneRow(op) { OneRowLogs(w, op, m); } else { TableLogs(w, op, m); }
  }

  /** A shield stands through every one-step request except its holder's release. */
  lemma PerformShields(w: World, op: Op, m: MessageId, actor: Actor, at: Time)
    requires Good(w) && Shielded(w, m, actor, at) && !GivesBack(Do(op), m, actor)
    ensures Shielded(Perform(w, op), m, actor, at)
    ensures Undisturbed(Perform(w, op).history, |w.history|, m)
  {
    var next := Perform(w, op);
    PerformLogs(w, op, m);
    PerformRequests(w, op);
    if m in next.db.messages {
      assert Claims.RowOk(w.db, Claims.Replay(w.history, m), m);
      PerformKeepsHold(w, op, m, actor, at);
      forall r | r in w.requests ensures !Threat(next.db, w.requests[r], m) {
        assert Claims.RequestOk(w.requests[r], w.db.now);
        assert !Threat(w.db, w.requests[r], m);
      }
    }
  }

  lemma ClaimShields(w: World, l: Label, m: MessageId, actor: Actor, at: Time)
    requires Good(w) && Shielded(w, m, actor, at)
    requires l.ClaimStart? || l.ClaimChannel? || l.ClaimCheck? || l.ClaimWrite?
    ensures Shielded(Next(w, l), m, actor, at)
    ensures Undisturbed(Next(w, l).history, |w.history|, m)
  {
  }

  lemma SweepShields(w: World, l: Label, m: MessageId, actor: Actor, at: Time)
    requires Good(w) && Shielded(w, m, actor, at) && (l.SweepStart? || l.SweepNext?)
    ensures Shielded(Next(w, l), m, actor, at)
    ensures Undisturbed(Next(w, l).history, |w.history|, m)
  {
  }

  /** The steps of retracts and cleanups. */
  predicate Archiving(l: Label) { l.RetractStart? || l.RetractCheck? || l.RetractWrite? || l.CleanStart? || l.CleanWrite? }

  lemma ReadShields(w: World, l: Label, m: MessageId, actor: Actor, at: Time)
    requires Good(w) && Shielded(w, m, actor, at) && (l.RetractStart? || l.RetractCheck? || l.CleanStart?)
    ensures Shielded(Next(w, l), m, actor, at)
    ensures Undisturbed(Next(w, l).history, |w.history|, m)
  {
  }

  /** A removal that leaves the row leaves it as it was, and no request comes nearer to it. */
  lemma RemovalKeepsRow(w: World, next: World, r: RequestId, m: MessageId, actor: Actor, at: Time)
    requires Shielded(w, m, actor, at) && next.db.nextMessage == w.db.nextMessage
    requires m in next.db.messages ==> m in w.db.messages && next.db.messages[m] == w.db.messages[m]
    requires r in next.requests && Over(next.requests[r])
    requires forall x :: x in next.requests && x != r ==> x in w.requests && next.requests[x] == w.requests[x]
    ensures Shielded(next, m, actor, at)
  {
    if m in next.db.messages {
      forall x | x in next.requests ensures !Threat(next.db, next.requests[x], m) {
        if x != r { assert !Threat(w.db, w.requests[x], m); }
      }
    }
  }

  lemma RemovalShields(w: World, l: Label, m: MessageId, actor: Actor, at: Time)
    requires Good(w) && Shielded(w, m, actor, at) && Removing(l)
    ensures Shielded(Next(w, l), m, actor, at)
    ensures Undisturbed(Next(w, l).history, |w.history|, m)
  {
    if l.r in w.requests {
      var q := w.requests[l.r];
      if l.RetractWrite? && q.AtRetractWrite? {
        RemovalKeepsRow(w, WriteRetract(w, l.r, q.m, q.seen), l.r, m, actor, at);
      } else if l.CleanWrite? && q.Cleaning? {
        CleanWritten(w, l.r, q.cutoff, q.order, q.rows, l.fault);
        RemovalKeepsRow(w, WriteClean(w, l.r, q.cutoff, q.order, q.rows, l.fault), l.r, m, actor, at);
      }
    }
  }

  /** ... and through every step of every claim, sweep, retract and cleanup in flight. */
  lemma RequestShields(w: World, l: Label, m: MessageId, actor: Actor, at: Time)
    requires Good(w) && Shielded(w, m, actor, at) && !l.Do?
    ensures Shielded(Next(w, l), m, actor, at)
    ensures Undisturbed(Next(w, l).history, |w.history|, m)
  {
    if l.SweepStart? || l.SweepNext? { SweepShields(w, l, m, actor, at); }
    else if Removing(l) { RemovalShields(w, l, m, actor, at); }
    else if Archiving(l) { ReadShields(w, l, m, actor, at); }
    else { ClaimShields(w, l, m, actor, at); }
  }

  predicate WithoutGiveBack(run: seq<Label>, m: MessageId, actor: Actor) {
    forall i :: 0 <= i < |run| ==> !GivesBack(run[i], m, actor)
  }

  lemma {:induction false} RunShields(w: World, run: seq<Label>, m: MessageId, actor: Actor, at: Time)
    requires Good(w) && Shielded(w, m, actor, at) && WithoutGiveBack(run, m, actor)
    ensures
      var end := Exec(w, run);
      && Shielded(end, m, actor, at)
      && |w.history| <= |end.history| && Undisturbed(end.history, |w.history|, m)
  {
    if run != [] {
      var (most, last) := (run[..|run| - 1], run[|run| - 1]);
      assert WithoutGiveBack(most, m, actor);
      RunShields(w, most, m, actor, at);
      RunGood(w, most);
      var before := Exec(w, most);
      if last.Do? { PerformShields(before, last.op, m, actor, at); }
      else { RequestShields(before, last, m, actor, at); }
      NextHistory(before, last);
      var end := Next(before, last);
      forall j | |w.history| <= j < |end.history| ensures !Claims.Supersedes(end.history[j].what, m) {
        if j < |before.history| { assert end.history[j] == end.history[..|before.history|][j]; }
      }
    }
  }

  // ---------- each threat can be carried out ----------

  /** Some continuation without the holder's release takes the message from its holder. */
  ghost predicate CanLose(w: World, m: MessageId, actor: Actor) {
    exists run :: WithoutGiveBack(run, m, actor) && Loses(w, run, m)
  }

  ghost predicate Loses(w: World, run: seq<Label>, m: MessageId) {
    |w.history| <= |Exec(w, run).history| && !Undisturbed(Exec(w, run).history, |w.history|, m)
  }

  lemma LaterLoss(w: World, l: Label, run: seq<Label>, m: MessageId)
    requires Loses(Next(w, l), run, m)
    ensures Loses(w, [l] + run, m)
  {
    ExecAppend(w, [l], run);
    ExecOne(w, l);
    NextHistory(w, l);
  }

  lemma WriteLoses(w: World, r: RequestId, m: MessageId)
    requires r in w.requests && w.requests[r].AtUpdate? && m in w.db.messages && Threat(w.db, w.requests[r], m)
    ensures Loses(w, [ClaimWrite(r)], m)
  {
    var end := Exec(w, [ClaimWrite(r)]);
    ExecOne(w, ClaimWrite(r));
    assert Claims.Supersedes(end.history[|w.history|].what, m);
  }

  lemma DecisionLoses(w: World, r: RequestId, m: MessageId)
    requires r in w.requests && w.requests[r].AtDecision? && m in w.db.messages && Threat(w.db, w.requests[r], m)
    requires w.db.messages[m].leaseEnd.value <= w.db.now
    ensures Loses(w, [ClaimCheck(r), ClaimWrite(r)], m)
  {
    WriteLoses(Next(w, ClaimCheck(r)), r, m);
    LaterLoss(w, ClaimCheck(r), [ClaimWrite(r)], m);
    assert [ClaimCheck(r)] + [ClaimWrite(r)] == [ClaimCheck(r), ClaimWrite(r)];
  }

  lemma ChannelLoses(w: World, r: RequestId, m: MessageId)
    requires Linked(w) && r in w.requests && w.requests[r].AtChannel? && m in w.db.messages && Threat(w.db, w.requests[r], m)
    requires w.db.messages[m].leaseEnd.value <= w.db.now
    ensures
      var open := w.db.channels[w.db.messages[m].channel].(mode := Claimable);
      Loses(w, [Do(UpdateChannel(w.db.messages[m].channel, open)), ClaimChannel(r), ClaimCheck(r), ClaimWrite(r)], m)
  {
    var c := w.db.messages[m].channel;
    var l := Do(UpdateChannel(c, w.db.channels[c].(mode := Claimable)));
    var w1 := Next(w, l);
    var w2 := Next(w1, ClaimChannel(r));
    assert SeenOk(w.db, w.requests[r].req, w.requests[r].seen);
    DecisionLoses(w2, r, m);
    LaterLoss(w1, ClaimChannel(r), [ClaimCheck(r), ClaimWrite(r)], m);
    LaterLoss(w, l, [ClaimChannel(r)] + [ClaimCheck(r), ClaimWrite(r)], m);
    assert [l] + ([ClaimChannel(r)] + [ClaimCheck(r), ClaimWrite(r)]) == [l, ClaimChannel(r), ClaimCheck(r), ClaimWrite(r)];
  }

  lemma {:induction false} SweepLoses(w: World, r: RequestId, m: MessageId) returns (run: seq<Label>)
    requires r in w.requests && w.requests[r].Sweeping? && m in w.db.messages && Threat(w.db, w.requests[r], m)
    ensures Loses(w, run, m) && forall i :: 0 <= i < |run| ==> run[i] == SweepNext(r)
    decreases |w.requests[r].todo|
  {
    var next := Next(w, SweepNext(r));
    if w.requests[r].todo[0] == m {
      run := [SweepNext(r)];
      ExecOne(w, SweepNext(r));
      assert Claims.Supersedes(next.history[|w.history|].what, m);
    } else {
      run := SweepLoses(next, r, m);
      LaterLoss(w, SweepNext(r), run, m);
      run := [SweepNext(r)] + run;
    }
  }

  /** A threat, given enough time for the lease to run out, is carried out. */
  lemma ThreatLoses(w: World, m: MessageId, actor: Actor)
    requires Good(w) && m in w.db.messages && Threatened(w, m)
    ensures CanLose(w, m, actor)
  {
    var r :| r in w.requests && Threat(w.db, w.requests[r], m);
    if w.requests[r].AtUpdate? {
      WriteLoses(w, r, m);
      assert WithoutGiveBack([ClaimWrite(r)], m, actor);
    } else if w.requests[r].Sweeping? {
      var run := SweepLoses(w, r, m);
      assert WithoutGiveBack(run, m, actor);
    } else {
      var end := w.db.messages[m].leaseEnd.value;
      var tick := Do(Tick(if end <= w.db.now then 0 else end - w.db.now));
      var later := Next(w, tick);
      var run;
      if w.requests[r].AtDecision? {
        DecisionLoses(later, r, m);
        run := [ClaimCheck(r), ClaimWrite(r)];
      } else {
        var c := w.db.messages[m].channel;
        ChannelLoses(later, r, m);
        run := [Do(UpdateChannel(c, w.db.channels[c].(mode := Claimable))), ClaimChannel(r), ClaimCheck(r), ClaimWrite(r)];
      }
      LaterLoss(w, tick, run, m);
      assert WithoutGiveBack([tick] + run, m, actor);
    }
  }

  /** Exactly when an ack protects a claim: a held, acked message can be taken from its holder if and
   *  only if a claim that read it unclaimed, or passed its check, or a sweep that listed it, is
   *  still in flight with the lease within its reach. */
  lemma AckProtectsIff(run: seq<Label>, m: MessageId, actor: Actor, at: Time)
    requires AckedHold(Exec(START, run).db, m, actor, at)
    ensures CanLose(Exec(START, run), m, actor) <==> Threatened(Exec(START, run), m)
  {
    var w := Exec(START, run);
    RunGood(START, run);
    assert Claims.RowOk(w.db, Claims.Replay(w.history, m), m);
    if Threatened(w, m) {
      ThreatLoses(w, m, actor);
    } else {
      forall more | WithoutGiveBack(more, m, actor) ensures !Loses(w, more, m) {
        RunShields(w, more, m, actor, at);
      }
    }
  }

  /** Without such a request the claim survives every interleaving, past any lease expiry, until the
   *  holder releases it or the row is removed. */
  lemma AckProtects(run: seq<Label>, more: seq<Label>, m: MessageId, actor: Actor, at: Time)
    requires AckedHold(Exec(START, run).db, m, actor, at) && !Threatened(Exec(START, run), m)
    requires WithoutGiveBack(more, m, actor)
    ensures var end := Exec(START, run + more); m in end.db.messages ==> AckedHold(end.db, m, actor, at)
  {
    var w := Exec(START, run);
    RunGood(START, run);
    assert Claims.RowOk(w.db, Claims.Replay(w.history, m), m);
    RunShields(w, more, m, actor, at);
    ExecAppend(START, run, more);
  }

  lemma NothingInFlight(w: World, m: MessageId)
    requires Settled(w) && m in w.db.messages
    ensures !Threatened(w, m)
  {
  }

  /** When requests run one at a time, an ack always protects the claim, whatever comes after it. */
  lemma AtomicAckProtects(xs: seq<Whole>, ys: seq<Whole>, m: MessageId, actor: Actor, at: Time)
    requires AckedHold(Exec(START, Flatten(xs)).db, m, actor, at)
    requires WithoutGiveBack(Flatten(ys), m, actor)
    ensures
      var end := Exec(START, Flatten(xs) + Flatten(ys));
      m in end.db.messages ==> AckedHold(end.db, m, actor, at)
  {
    var (run, more) := (Flatten(xs), Flatten(ys));
    AllSettled(xs);
    NothingInFlight(Exec(START, run), m);
    AckProtects(run, more, m, actor, at);
  }

  // ---------- and it does not always protect it: a run that loses an acked claim ----------

  const TASKS: Channel := Channel(Claimable, false, 86_400, 7, None, None)

  const BY_ANN: ClaimRequest := ClaimRequest(0, "ann", "key-a", true, Some(30))
  const BY_BOB: ClaimRequest := ClaimRequest(0, "bob", "key-b", true, None)

  /** A claimable channel with one message. */
  lemma JobPosted() returns (run: seq<Label>, w: World)
    ensures w == Exec(START, run) && w.requests == map[] && w.db.now == 0
    ensures 0 in w.db.messages && w.db.messages[0].holder.None? && w.db.messages[0].channel == 0
    ensures w.db.messages[0].expiresAt == 86_400 * SECOND && w.db.messages[0].log == []
    ensures 0 in w.db.channels && w.db.channels[0] == TASKS
  {
    var w1 := Next(START, Do(CreateChannel(TASKS)));
    run := [Do(CreateChannel(TASKS))];
    assert run[..0] == [];
    w := Next(w1, Do(PostMessage(PostRequest(0, "job", true, true))));
    ExecAppend(START, run, [Do(PostMessage(PostRequest(0, "job", true, true)))]);
    ExecOne(w1, Do(PostMessage(PostRequest(0, "job", true, true))));
    run := run + [Do(PostMessage(PostRequest(0, "job", true, true)))];
  }

  /** Ann leases it, and her lease runs out. */
  lemma LeaseRunsOut() returns (run: seq<Label>, w: World)
    ensures w == Exec(START, run) && w.requests.Keys == {0} && w.db.now == 30 * SECOND
    ensures 0 in w.db.messages && w.db.messages[0].holder == Some("ann") && w.db.messages[0].claimedAt == Some(0)
    ensures w.db.messages[0].leaseEnd == Some(30 * SECOND) && w.db.messages[0].expiresAt == 86_400 * SECOND
    ensures !Acked(w.db.messages[0].log) && !AckedBy(w.db.messages[0].log, "ann")
    ensures w.db.messages[0].channel == 0 && 0 in w.db.channels && w.db.channels[0] == TASKS
  {
    var w2;
    run, w2 := JobPosted();
    ClaimIsWhole(w2, 0, BY_ANN);
    ExecAppend(START, run, Steps(Claim(0, BY_ANN)));
    run := run + Steps(Claim(0, BY_ANN));
    var w6 := Exec(START, run);
    Claims.LogSnoc([], Event(ClaimEvent, "ann", 0, None));
    ExecAppend(START, run, [Do(Tick(30 * SECOND))]);
    ExecOne(w6, Do(Tick(30 * SECOND)));
    run := run + [Do(Tick(30 * SECOND))];
    w := Exec(START, run);
  }

  /** Bob's claim passes its check, and then Ann acks. */
  lemma AckComesTooLate() returns (run: seq<Label>, w: World)
    ensures w == Exec(START, run) && AckedHold(w.db, 0, "ann", 0)
    ensures w.db.messages[0].leaseEnd == Some(30 * SECOND)
    ensures Pending(w, 1) == Some(AtUpdate(BY_BOB, Some("ann"), 30 * SECOND))
  {
    var w7;
    run, w7 := LeaseRunsOut();
    var w8 := Next(w7, ClaimStart(1, BY_BOB));
    assert w8 == Answered(w7, 1, AtChannel(BY_BOB, w7.db.messages[0]));
    var w9 := Next(w8, ClaimChannel(1));
    assert w9 == Answered(w8, 1, AtDecision(BY_BOB, w7.db.messages[0]));
    var w10 := Next(w9, ClaimCheck(1));
    assert w10 == Answered(w9, 1, AtUpdate(BY_BOB, Some("ann"), 30 * SECOND));
    var ack := Do(Acknowledge(0, "ann", true));
    var tail := [ClaimStart(1, BY_BOB), ClaimChannel(1), ClaimCheck(1), ack];
    ExecFour(w7, tail[0], tail[1], tail[2], tail[3]);
    ExecAppend(START, run, tail);
    run := run + tail;
    w := Next(w10, ack);
    Claims.LogSnoc(w10.db.messages[0].log, Event(AckEvent, "ann", w10.db.now, None));
  }

  /** With Bob's claim past its check, Ann's claim is acked and hers, and Bob's write takes it all the same. */
  lemma AckedClaimLost() returns (run: seq<Label>)
    ensures AckedHold(Exec(START, run).db, 0, "ann", 0) && Threatened(Exec(START, run), 0)
    ensures
      var end := Exec(START, run + [ClaimWrite(1)]);
      0 in end.db.messages && end.db.messages[0].holder == Some("bob")
  {
    var w;
    run, w := AckComesTooLate();
    assert Threat(w.db, w.requests[1], 0);
    ExecAppend(START, run, [ClaimWrite(1)]);
    ExecOne(w, ClaimWrite(1));
  }

  // ---------- the two recovery paths ----------

  lemma {:induction false} SweptRows(db: Db, todo: seq<MessageId>, cutoff: Time, m: MessageId)
    requires m in db.messages
    requires forall i, j :: 0 <= i < j < |todo| ==> todo[i] != todo[j]
    ensures
      var after := SweepRows(db, todo, cutoff);
      && m in after.messages
      && after.messages[m] == (if m in todo && LeaseExpired(db.messages[m], cutoff) then Unclaim(db.messages[m]) else db.messages[m])
    decreases |todo|
  {
    if todo != [] {
      var next := SweepRow(db, todo[0], cutoff);
      SweptRows(next, todo[1..], cutoff, m);
      assert todo == [todo[0]] + todo[1..];
      if m == todo[0] { assert m !in todo[1..]; }
    }
  }

  lemma RecoverySame(row: Message, now: Time, t: Time)
    requires (row.token.None? <==> row.leaseEnd.None?) && (row.holder.None? <==> row.claimedAt.None?)
    ensures
      var a := if SweepSelects(row, now) then Unclaim(row) else row;
      var b := ClearLease(row, now);
      a.holder == b.holder && a.claimedAt == b.claimedAt && (Open(a, t) <==> Open(b, t))
  {
  }

  /** The sweep and the cleanup recover a message that outlives the cleanup to the same holder, the
   *  same claim time, and the same openness to claims at every instant. */
  lemma RecoveryPathsAgree(run: seq<Label>, swept: seq<MessageId>, expired: seq<MessageId>, m: MessageId, t: Time)
    requires
      var db := Exec(START, run).db;
      && m in db.messages && db.messages[m].expiresAt > db.now
      && SweepListing(db.messages, db.now, swept) && ExpiredListing(db.messages, db.now, expired)
    ensures
      var db := Exec(START, run).db;
      var (a, b) := (SweepRows(db, swept, db.now).messages, Cleanup(db, expired).messages);
      && m in a && m in b
      && a[m].holder == b[m].holder && a[m].claimedAt == b[m].claimedAt
      && (Open(a[m], t) <==> Open(b[m], t))
  {
    var w := Exec(START, run);
    Claims.Ledger(run, m);
    SweptRows(w.db, swept, w.db.now, m);
    RecoverySame(w.db.messages[m], w.db.now, t);
  }

  /** They differ in one column: the sweep forgets the key that made the claim, the cleanup leaves it on an
   *  unclaimed row. */
  lemma RecoveryPathsDifferInKey(run: seq<Label>, swept: seq<MessageId>, expired: seq<MessageId>, m: MessageId)
    requires
      var db := Exec(START, run).db;
      && m in db.messages && db.messages[m].expiresAt > db.now && SweepSelects(db.messages[m], db.now)
      && SweepListing(db.messages, db.now, swept) && ExpiredListing(db.messages, db.now, expired)
    ensures
      var db := Exec(START, run).db;
      var (a, b) := (SweepRows(db, swept, db.now).messages, Cleanup(db, expired).messages);
      && m in a && a[m].holder.None? && a[m].claimedKey.None?
      && m in b && b[m].holder.None? && b[m].claimedKey.Some? && b[m].claimedKey == db.messages[m].claimedKey
  {
    var w := Exec(START, run);
    Claims.Ledger(run, m);
    SweptRows(w.db, swept, w.db.now, m);
    assert m in swept;
  }
}
