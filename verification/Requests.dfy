/** What each request of the message store answers and what it leaves, told from rows, logs and the clock, and what
 *  follows from that over whole runs. No statement names the function of module Tables that it is about, except to
 *  say whose answer it describes. */
module Requests {
  import opened Common
  import opened Tables
  import opened Protocol
  import opened Lifecycle
  import Claims
  import AckSafety

  // ---------- conditions on the rows ----------

  /** Somebody has acknowledged. */
  predicate HasAck(log: seq<Event>) { exists k :: 0 <= k < |log| && log[k].kind == AckEvent }

  /** How often this actor has acknowledged. */
  function Acks(log: seq<Event>, actor: Actor): nat {
    if log == [] then 0
    else Acks(log[..|log| - 1], actor) + if log[|log| - 1].kind == AckEvent && log[|log| - 1].actor == actor then 1 else 0
  }

  predicate Unexpired(db: Db, m: MessageId) { m in db.messages && db.messages[m].expiresAt > db.now }

  /** The message is there and unexpired, and its channel is claimable and open to the caller. */
  predicate Workable(db: Db, m: MessageId, allowed: bool) {
    && Unexpired(db, m) && allowed
    && db.messages[m].channel in db.channels && db.channels[db.messages[m].channel].mode == Claimable
  }

  /** The lease is still running. */
  predicate Leasing(row: Message, now: Time) { row.leaseEnd.Some? && row.leaseEnd.value > now }

  /** The first of the checks a claim or a release failed: the message, its age, its channel, the mode, the access. */
  predicate Turned(db: Db, m: MessageId, allowed: bool, reply: Reply) {
    if m !in db.messages then reply == Refused(404, "message_not_found")
    else if db.now >= db.messages[m].expiresAt then reply == Refused(410, "message_expired")
    else if db.messages[m].channel !in db.channels then reply == Refused(404, "channel_not_found")
    else if db.channels[db.messages[m].channel].mode == Broadcast then reply == Refused(409, "channel_not_claimable")
    else !allowed && reply == Refused(403, "channel_access_denied")
  }

  /** Only this row of the message table differs. */
  ghost predicate OnlyRow(db: Db, after: Db, m: MessageId) {
    && m in db.messages && m in after.messages
    && after == db.(messages := after.messages, nextToken := after.nextToken)
    && after.messages == db.messages[m := after.messages[m]]
    && SamePost(after.messages[m], db.messages[m])
  }

  lemma {:induction false} AckedIff(log: seq<Event>)
    ensures Acked(log) <==> HasAck(log)
  {
    if log != [] {
      var (most, last) := (log[..|log| - 1], log[|log| - 1]);
      AckedIff(most);
      if HasAck(most) {
        var k :| 0 <= k < |most| && most[k].kind == AckEvent;
        assert log[k].kind == AckEvent;
      }
      if HasAck(log) && last.kind != AckEvent {
        var k :| 0 <= k < |log| && log[k].kind == AckEvent;
        assert most[k].kind == AckEvent;
      }
    }
  }

  lemma {:induction false} AckedByIff(log: seq<Event>, actor: Actor)
    ensures AckedBy(log, actor) <==> Acks(log, actor) > 0
  {
    if log != [] {
      var (most, last) := (log[..|log| - 1], log[|log| - 1]);
      AckedByIff(most, actor);
      assert log == most + [last];
      if AckedBy(most, actor) {
        var e :| e in most && e.kind.AckEvent? && e.actor == actor;
        assert e in log;
      }
    }
  }

  lemma AcksSnoc(log: seq<Event>, e: Event, actor: Actor)
    ensures Acks(log + [e], actor) == Acks(log, actor) + if e.kind == AckEvent && e.actor == actor then 1 else 0
  {
    assert (log + [e])[..|log + [e]| - 1] == log;
  }

  // ---------- claim ----------

  predicate SecondsOk(lease: Option<int>) { lease.Some? ==> lease.value >= 30 && lease.value <= 3600 }

  /** The caller holds the message already and asks for no lease. */
  predicate Repeats(row: Message, req: ClaimRequest) { req.lease.None? && row.holder == Some(req.actor) }

  /** The message is with a holder from whom it cannot be taken: acknowledged, without a lease, or with one running. */
  predicate Firm(row: Message, now: Time) {
    row.holder.Some? && (HasAck(row.log) || row.leaseEnd.None? || Leasing(row, now))
  }

  lemma WholeClaimAnswers(db: Db, req: ClaimRequest)
    ensures
      var (after, reply) := ClaimWhole(db, req);
      && (!SecondsOk(req.lease) <==> reply == Refused(422, "invalid_lease_seconds"))
      && (SecondsOk(req.lease) && !Workable(db, req.m, req.allowed) ==> Turned(db, req.m, req.allowed, reply))
      && (SecondsOk(req.lease) && Workable(db, req.m, req.allowed) ==>
            var row := db.messages[req.m];
            if Repeats(row, req) then reply == AlreadyHeld(HasAck(row.log))
            else if Firm(row, db.now) then reply == Refused(409, "already_claimed")
            else reply == if req.lease.None? then Claimed else Leased(db.nextToken, db.now + req.lease.value * SECOND))
      && (!reply.Claimed? && !reply.Leased? ==> after == db)
  {
    if req.m in db.messages { AckedIff(db.messages[req.m].log); }
  }

  /** The answer to an uninterrupted claim. The present holder that repeats its plain claim is told so, and whether an
   *  acknowledgement is in the log; 409 goes to everyone else while the holder cannot be displaced; and whoever is not
   *  granted the message has changed nothing. */
  lemma ClaimAnswers(w: World, r: RequestId, req: ClaimRequest) returns (end: World, reply: Reply)
    requires r !in w.requests
    ensures end == Exec(w, Steps(Claim(r, req))) && Pending(end, r) == Some(Finished(reply))
    ensures reply == Refused(422, "invalid_lease_seconds") <==> !SecondsOk(req.lease)
    ensures SecondsOk(req.lease) && !Workable(w.db, req.m, req.allowed) ==> Turned(w.db, req.m, req.allowed, reply)
    ensures forall acked ::
              reply == AlreadyHeld(acked) <==>
              && SecondsOk(req.lease) && Workable(w.db, req.m, req.allowed) && Repeats(w.db.messages[req.m], req)
              && (acked <==> HasAck(w.db.messages[req.m].log))
    ensures reply == Refused(409, "already_claimed") <==>
              && SecondsOk(req.lease) && Workable(w.db, req.m, req.allowed)
              && !Repeats(w.db.messages[req.m], req) && Firm(w.db.messages[req.m], w.db.now)
    ensures reply.Claimed? || reply.Leased? <==>
              && SecondsOk(req.lease) && Workable(w.db, req.m, req.allowed)
              && !Repeats(w.db.messages[req.m], req) && !Firm(w.db.messages[req.m], w.db.now)
    ensures !reply.Claimed? && !reply.Leased? ==> end.db == w.db
  {
    ClaimIsWhole(w, r, req);
    WholeClaimAnswers(w.db, req);
    end, reply := Exec(w, Steps(Claim(r, req))), ClaimWhole(w.db, req).1;
  }

  /** In between, the check goes by two different moments: the holder and the lease of the row read earlier, and the
   *  acknowledgements there are now. */
  lemma CheckDecides(w: World, r: RequestId, req: ClaimRequest, seen: Message)
    requires Pending(w, r) == Some(AtDecision(req, seen))
    ensures
      var next := Next(w, ClaimCheck(r));
      var there := req.m in w.db.messages;
      var acked := there && HasAck(w.db.messages[req.m].log);
      && next == w.(requests := next.requests) && next.requests.Keys == w.requests.Keys
      && Pending(next, r) == Some(
           if Repeats(seen, req) then Finished(if there then AlreadyHeld(acked) else Refused(404, "message_not_found"))
           else if seen.holder != None && (acked || seen.leaseEnd == None || Leasing(seen, w.db.now))
           then Finished(Refused(409, "already_claimed"))
           else AtUpdate(req, seen.holder, w.db.now))
  {
    if req.m in w.db.messages { AckedIff(w.db.messages[req.m].log); }
  }

  // ---------- release ----------

  /** A release succeeds exactly for the holder, lease or no lease, and clears holder, time and key alone. */
  lemma ReleaseAnswers(db: Db, m: MessageId, actor: Actor, allowed: bool)
    ensures
      var (after, reply) := Release(db, m, actor, allowed);
      && (reply == Released <==> Workable(db, m, allowed) && db.messages[m].holder == Some(actor))
      && (reply == Refused(409, "not_claimed") <==> Workable(db, m, allowed) && db.messages[m].holder == None)
      && (reply == Refused(403, "forbidden")
          <==> Workable(db, m, allowed) && db.messages[m].holder.Some? && db.messages[m].holder.value != actor)
      && (!Workable(db, m, allowed) ==> Turned(db, m, allowed, reply))
      && (reply != Released ==> after == db)
      && (reply == Released ==>
            && OnlyRow(db, after, m) && after.nextToken == db.nextToken
            && var (was, now) := (db.messages[m], after.messages[m]);
               && now.holder == None && now.claimedAt == None && now.claimedKey == None
               && now.token == was.token && now.leaseEnd == was.leaseEnd && now.log == was.log)
  {
  }

  /** The message is free, the caller may work on it, and the claim asks for nothing impossible. */
  predicate Fresh(db: Db, req: ClaimRequest) {
    SecondsOk(req.lease) && Workable(db, req.m, req.allowed) && db.messages[req.m].holder == None
  }

  /** The release of a claim just made, on the tables. */
  lemma ReleaseOfClaim(db: Db, claimed: Db, after: Db, req: ClaimRequest)
    requires Fresh(db, req) && after == Release(claimed, req.m, req.actor, true).0
    requires OnlyRow(db, claimed, req.m) && claimed.messages[req.m].holder == Some(req.actor)
    ensures OnlyRow(db, after, req.m) && after.nextToken == claimed.nextToken
    ensures
      var (was, now) := (claimed.messages[req.m], after.messages[req.m]);
      now == was.(holder := None, claimedAt := None, claimedKey := None)
    ensures forall next: ClaimRequest :: next.m == req.m && next.allowed && SecondsOk(next.lease) ==> Fresh(after, next)
  {
    ReleaseAnswers(claimed, req.m, req.actor, true);
  }

  lemma FreshGrantable(db: Db, req: ClaimRequest)
    requires Fresh(db, req)
    ensures Claims.Grantable(db, req)
  {
  }

  /** A claim and its release leave the message as free as it was: but for the event in its log and, after a lease, the
   *  lease, everything is as before, and whoever may use the channel is granted it next. */
  lemma ReleaseUndoesClaim(run: seq<Label>, r: RequestId, req: ClaimRequest) returns (end: World)
    requires var w := Exec(START, run); r !in w.requests && Fresh(w.db, req)
    ensures end == Exec(START, run + Steps(Claim(r, req)) + [Do(GiveBack(req.m, req.actor, true))])
    ensures
      var db := Exec(START, run).db;
      && OnlyRow(db, end.db, req.m)
      && var (was, now) := (db.messages[req.m], end.db.messages[req.m]);
         && now.holder == was.holder && now.claimedAt == was.claimedAt
         && now.log == was.log + [Event(ClaimEvent, req.actor, db.now, None)]
         && (now.token.Some? <==> req.lease.Some?)
         && now.leaseEnd == (if req.lease.Some? then Some(db.now + req.lease.value * SECOND) else None)
    ensures forall next: ClaimRequest :: next.m == req.m && next.allowed && SecondsOk(next.lease) ==> Fresh(end.db, next)
  {
    var w := Exec(START, run);
    Claims.Ledger(run, req.m);
    FreshGrantable(w.db, req);
    var claimed, row := Claims.ClaimLeaves(w, r, req);
    var give := Do(GiveBack(req.m, req.actor, true));
    end := Next(claimed, give);
    ReleaseOfClaim(w.db, claimed.db, end.db, req);
    ExecAppend(START, run, Steps(Claim(r, req)));
    ExecAppend(START, run + Steps(Claim(r, req)), [give]);
    ExecOne(claimed, give);
  }

  /** So a lease outlives the release of its message: its token is accepted although nobody holds the message. */
  lemma LeaseOutlivesRelease(run: seq<Label>, r: RequestId, req: ClaimRequest, seconds: int) returns (end: World, token: Token)
    requires var w := Exec(START, run); r !in w.requests && Fresh(w.db, req)
    requires req.lease.Some? && 30 <= seconds <= 3600
    ensures end == Exec(START, run + Steps(Claim(r, req)) + [Do(GiveBack(req.m, req.actor, true))])
    ensures req.m in end.db.messages && end.db.messages[req.m].holder == None && end.db.messages[req.m].token == Some(token)
    ensures Heartbeat(end.db, token, seconds).1 == Extended(end.db.now + seconds * SECOND)
  {
    end := ReleaseUndoesClaim(run, r, req);
    token := end.db.messages[req.m].token.value;
    Claims.Reachable(run + Steps(Claim(r, req)) + [Do(GiveBack(req.m, req.actor, true))]);
    Claims.LeaseBeats(end.db, req.m, token, seconds);
  }

  const CLAIMABLE: Channel := Channel(Claimable, false, 3600, 7, None, None)
  const JOB: PostRequest := PostRequest(0, "job", true, true)
  const LEASED_AND_RELEASED: seq<Label> :=
    [Do(CreateChannel(CLAIMABLE)), Do(PostMessage(JOB))] + Steps(Claim(0, ClaimRequest(0, "ann", "key", true, Some(30))))
    + [Do(GiveBack(0, "ann", true))]

  lemma JobPosted() returns (w: World)
    ensures w == Exec(START, [Do(CreateChannel(CLAIMABLE)), Do(PostMessage(JOB))])
    ensures w.requests == map[] && Fresh(w.db, ClaimRequest(0, "ann", "key", true, Some(30))) && w.db.now == 0
  {
    ExecTwo(START, Do(CreateChannel(CLAIMABLE)), Do(PostMessage(JOB)));
    var made := Next(START, Do(CreateChannel(CLAIMABLE)));
    assert Recent(made.db.messages, 0, made.db.now - 60 * SECOND) == {};
    w := Next(made, Do(PostMessage(JOB)));
  }

  /** One such run: Ann posts, leases for 30 seconds, releases at once, and her token still beats. */
  lemma ReleasedLeaseRun() returns (w: World, token: Token)
    ensures w == Exec(START, LEASED_AND_RELEASED)
    ensures 0 in w.db.messages && w.db.messages[0].holder == None && w.db.messages[0].token == Some(token)
    ensures Heartbeat(w.db, token, 30).1 == Extended(30 * SECOND)
  {
    var posted := JobPosted();
    var run := [Do(CreateChannel(CLAIMABLE)), Do(PostMessage(JOB))];
    var req := ClaimRequest(0, "ann", "key", true, Some(30));
    w, token := LeaseOutlivesRelease(run, 0, req, 30);
    var after := ReleaseUndoesClaim(run, 0, req);
  }

  // ---------- acknowledge ----------

  /** An admitted acknowledgement is the actor's first exactly when the log holds none of its own, whoever else has
   *  acknowledged; it then adds that one event, and otherwise changes nothing. */
  lemma AckAnswers(db: Db, m: MessageId, actor: Actor, allowed: bool)
    ensures
      var (after, reply) := Ack(db, m, actor, allowed);
      var admitted := Unexpired(db, m) && db.messages[m].channel in db.channels && allowed;
      && (reply.Acknowledged? <==> admitted)
      && (admitted ==> (reply.first <==> Acks(db.messages[m].log, actor) == 0))
      && (reply == Refused(404, "message_not_found") <==> m !in db.messages)
      && (reply == Refused(410, "message_expired") <==> m in db.messages && !Unexpired(db, m))
      && (reply == Refused(404, "channel_not_found") <==> Unexpired(db, m) && db.messages[m].channel !in db.channels)
      && (reply == Refused(403, "channel_access_denied")
          <==> Unexpired(db, m) && db.messages[m].channel in db.channels && !allowed)
      && (reply != Acknowledged(true) ==> after == db)
      && (reply == Acknowledged(true) ==>
            && after == db.(messages := after.messages) && OnlyRow(db, after, m)
            && after.messages[m] == db.messages[m].(log := after.messages[m].log)
            && after.messages[m].log == db.messages[m].log + [Event(AckEvent, actor, db.now, None)])
  {
    if m in db.messages { AckedByIff(db.messages[m].log, actor); }
  }

  /** What a step may do to the log of a message that stays: leave it, or add one event, an acknowledgement only if its
   *  actor had none. The log of a new message is empty. */
  ghost predicate LogMoves(was: seq<Event>, now: seq<Event>) {
    now == was || exists e: Event :: now == was + [e] && (e.kind == AckEvent ==> Acks(was, e.actor) == 0)
  }

  ghost predicate LogsMove(db: Db, after: Db) {
    && db.nextMessage <= after.nextMessage
    && (forall m :: m in after.messages && m < db.nextMessage ==>
                      m in db.messages && LogMoves(db.messages[m].log, after.messages[m].log))
    && (forall m :: m in after.messages && m !in db.messages ==> after.messages[m].log == [])
  }

  lemma AckMovesLogs(db: Db, x: MessageId, actor: Actor, allowed: bool)
    ensures LogsMove(db, Ack(db, x, actor, allowed).0)
  {
    AckAnswers(db, x, actor, allowed);
  }

  lemma ClaimMovesLogs(db: Db, req: ClaimRequest, prev: Option<Actor>, at: Time)
    ensures LogsMove(db, ClaimUpdate(db, req, prev, at).0)
  {
  }

  lemma LeasesMoveNoLog(w: World, op: Op)
    requires op.Pulse? || op.GiveBack?
    ensures LogsMove(w.db, Perform(w, op).db)
  {
  }

  lemma OthersMoveNoLog(w: World, op: Op)
    requires !op.Acknowledge? && !op.Pulse? && !op.GiveBack?
    ensures LogsMove(w.db, Perform(w, op).db)
  {
  }

  lemma NextMovesLogs(w: World, l: Label)
    ensures LogsMove(w.db, Next(w, l).db)
  {
    match l
    case Do(Acknowledge(m, actor, allowed)) => AckMovesLogs(w.db, m, actor, allowed);
    case Do(op) => if op.Pulse? || op.GiveBack? { LeasesMoveNoLog(w, op); } else { OthersMoveNoLog(w, op); }
    case ClaimWrite(r) =>
      if r in w.requests && w.requests[r].AtUpdate? {
        ClaimMovesLogs(w.db, w.requests[r].req, w.requests[r].prev, w.requests[r].at);
      }
    case CleanWrite(r, fault) => CommitIs(w, l);
    case _ =>
  }

  lemma LogMoveAcks(was: seq<Event>, now: seq<Event>, actor: Actor)
    requires LogMoves(was, now)
    ensures Acks(was, actor) <= Acks(now, actor)
    ensures Acks(was, actor) <= 1 ==> Acks(now, actor) <= 1
  {
    if now != was {
      var e :| now == was + [e] && (e.kind == AckEvent ==> Acks(was, e.actor) == 0);
      AcksSnoc(was, e, actor);
    }
  }

  /** A message that is live again later was live all along, and its acknowledgements are still in its log. */
  lemma {:induction false} AcksStay(w: World, more: seq<Label>, m: MessageId, actor: Actor)
    requires m < w.db.nextMessage && m in Exec(w, more).db.messages
    ensures w.db.nextMessage <= Exec(w, more).db.nextMessage && m in w.db.messages
    ensures Acks(w.db.messages[m].log, actor) <= Acks(Exec(w, more).db.messages[m].log, actor)
  {
    if more != [] {
      var last := |more| - 1;
      var before := Exec(w, more[..last]);
      NextMovesLogs(before, more[last]);
      IdsGrow(w, more[..last]);
      AcksStay(w, more[..last], m, actor);
      LogMoveAcks(before.db.messages[m].log, Exec(w, more).db.messages[m].log, actor);
    }
  }

  lemma {:induction false} IdsGrow(w: World, more: seq<Label>)
    ensures w.db.nextMessage <= Exec(w, more).db.nextMessage
  {
    if more != [] {
      IdsGrow(w, more[..|more| - 1]);
      NextMovesLogs(Exec(w, more[..|more| - 1]), more[|more| - 1]);
    }
  }

  /** In every run an actor has at most one acknowledgement on a message. */
  lemma {:induction false} OneAckEach(run: seq<Label>, m: MessageId, actor: Actor)
    requires m in Exec(START, run).db.messages
    ensures Acks(Exec(START, run).db.messages[m].log, actor) <= 1
  {
    if run != [] {
      var (w, l) := (Exec(START, run[..|run| - 1]), run[|run| - 1]);
      NextMovesLogs(w, l);
      Lifecycle.RunOrdered(run[..|run| - 1]);
      if m in w.db.messages {
        OneAckEach(run[..|run| - 1], m, actor);
        LogMoveAcks(w.db.messages[m].log, Next(w, l).db.messages[m].log, actor);
      }
    }
  }

  /** Once an acknowledgement has been admitted, the log of the message holds exactly one of that actor, in every
   *  continuation for as long as the message is there, and acknowledging again is answered so and changes nothing. */
  lemma AckedOnceForAll(run: seq<Label>, m: MessageId, actor: Actor, more: seq<Label>, allowed: bool)
    requires Ack(Exec(START, run).db, m, actor, true).1.Acknowledged?
    requires m in Exec(START, run + [Do(Acknowledge(m, actor, true))] + more).db.messages
    ensures
      var db := Exec(START, run + [Do(Acknowledge(m, actor, true))] + more).db;
      && Acks(db.messages[m].log, actor) == 1
      && Ack(db, m, actor, allowed).0 == db && Ack(db, m, actor, allowed).1 != Acknowledged(true)
  {
    var w := Exec(START, run);
    var ack := Do(Acknowledge(m, actor, true));
    AckAnswers(w.db, m, actor, true);
    if Ack(w.db, m, actor, true).1.first { AcksSnoc(w.db.messages[m].log, Event(AckEvent, actor, w.db.now, None), actor); }
    Lifecycle.RunOrdered(run);
    ExecAppend(START, run, [ack]);
    ExecOne(w, ack);
    ExecAppend(START, run + [ack], more);
    AcksStay(Next(w, ack), more, m, actor);
    OneAckEach(run + [ack] + more, m, actor);
    AckAnswers(Exec(START, run + [ack] + more).db, m, actor, allowed);
  }

  // ---------- heartbeat ----------

  lemma HeartbeatFinds(db: Db, m: MessageId, token: Token, seconds: int)
    requires TokensDistinct(db.messages) && m in db.messages && db.messages[m].token == Some(token)
    ensures
      var (after, reply) := Heartbeat(db, token, seconds);
      if 30 <= seconds <= 3600 && Leasing(db.messages[m], db.now)
      then && reply == Extended(db.now + seconds * SECOND)
           && after == db.(messages := db.messages[m := db.messages[m].(leaseEnd := Some(db.now + seconds * SECOND))])
      else after == db && reply.Refused?
  {
    Claims.TokenRowIs(db.messages, m, token);
  }

  /** A heartbeat is accepted exactly when a row carries the token and its lease is still running; that row's lease then
   *  ends the asked seconds from now and nothing else changes. Otherwise nothing does. */
  lemma HeartbeatAnswers(run: seq<Label>, token: Token, seconds: int)
    ensures
      var db := Exec(START, run).db;
      var (after, reply) := Heartbeat(db, token, seconds);
      && (reply == Refused(422, "invalid_lease_seconds") <==> seconds < 30 || seconds > 3600)
      && (reply == Refused(410, "lease_expired")
          <==> 30 <= seconds <= 3600 && forall m :: m in db.messages && db.messages[m].token == Some(token) ==> !Leasing(db.messages[m], db.now))
      && (forall m :: m in db.messages && db.messages[m].token == Some(token) && Leasing(db.messages[m], db.now) && 30 <= seconds <= 3600 ==>
            && reply == Extended(db.now + seconds * SECOND)
            && after == db.(messages := db.messages[m := db.messages[m].(leaseEnd := Some(db.now + seconds * SECOND))]))
      && (reply.Refused? ==> after == db)
  {
    var db := Exec(START, run).db;
    Claims.Reachable(run);
    forall m | m in db.messages && db.messages[m].token == Some(token)
      ensures
        var (after, reply) := Heartbeat(db, token, seconds);
        if 30 <= seconds <= 3600 && Leasing(db.messages[m], db.now)
        then && reply == Extended(db.now + seconds * SECOND)
             && after == db.(messages := db.messages[m := db.messages[m].(leaseEnd := Some(db.now + seconds * SECOND))])
        else after == db && reply.Refused?
    {
      HeartbeatFinds(db, m, token, seconds);
    }
  }

  // ---------- sweep ----------

  /** Held, never acknowledged, and its lease has run out. */
  predicate Abandoned(row: Message, now: Time) {
    row.holder.Some? && !HasAck(row.log) && row.leaseEnd.Some? && row.leaseEnd.value <= now
  }

  lemma SelectsAbandoned(ms: MessageTable, now: Time)
    ensures SweepSelect(ms, now) == set m | m in ms && Abandoned(ms[m], now)
  {
    forall m | m in ms ensures SweepSelects(ms[m], now) <==> Abandoned(ms[m], now) { AckedIff(ms[m].log); }
  }

  lemma {:induction false} SweepCounts(w: World, r: RequestId, cutoff: Time, todo: seq<MessageId>, count: nat)
    requires Pending(w, r) == Some(Sweeping(cutoff, todo, count))
    requires forall i, j :: 0 <= i < j < |todo| ==> todo[i] != todo[j]
    requires forall m :: m in todo ==> m in w.db.messages && LeaseExpired(w.db.messages[m], cutoff)
    ensures Pending(Exec(w, Repeat(SweepNext(r), |todo| + 1)), r) == Some(SweepDone(count + |todo|))
    decreases |todo|
  {
    var next := Next(w, SweepNext(r));
    ExecCons(w, SweepNext(r), Repeat(SweepNext(r), |todo|));
    if todo != [] {
      forall m | m in todo[1..] ensures m in next.db.messages && next.db.messages[m] == w.db.messages[m] {
        var i :| 1 <= i < |todo| && todo[i] == m;
        assert m != todo[0];
      }
      SweepCounts(next, r, cutoff, todo[1..], count + 1);
    }
  }

  lemma ListedExpired(ms: MessageTable, cutoff: Time, order: seq<MessageId>)
    requires SweepListing(ms, cutoff, order)
    ensures forall m :: m in order ==> m in ms && LeaseExpired(ms[m], cutoff)
  {
    forall m | m in order ensures m in ms && LeaseExpired(ms[m], cutoff) { assert m in SweepSelect(ms, cutoff); }
  }

  lemma SweepBegins(w: World, r: RequestId, order: seq<MessageId>)
    requires r !in w.requests && SweepListing(w.db.messages, w.db.now, order)
    ensures Next(w, SweepStart(r, order)) == Answered(w, r, Sweeping(w.db.now, order, 0))
  {
  }

  lemma BeginThenRun(w: World, l: Label, run: seq<Label>, begun: World)
    requires Next(w, l) == begun
    ensures Exec(w, [l] + run) == Exec(begun, run)
  {
    ExecCons(w, l, run);
  }

  /** An uninterrupted sweep counts what it lists. */
  lemma SweepReports(w: World, r: RequestId, order: seq<MessageId>)
    requires r !in w.requests && SweepListing(w.db.messages, w.db.now, order)
    ensures Pending(Exec(w, Steps(Sweep(r, order))), r) == Some(SweepDone(|order|))
  {
    var begun := Answered(w, r, Sweeping(w.db.now, order, 0));
    SweepBegins(w, r, order);
    BeginThenRun(w, SweepStart(r, order), Repeat(SweepNext(r), |order| + 1), begun);
    ListedExpired(w.db.messages, w.db.now, order);
    SweepCounts(begun, r, w.db.now, order, 0);
  }

  /** It frees exactly the abandoned messages, of holder, time, key and lease, and lists them and nothing else. */
  lemma SweepFrees(w: World, r: RequestId, order: seq<MessageId>, m: MessageId)
    requires r !in w.requests && SweepListing(w.db.messages, w.db.now, order) && m in w.db.messages
    ensures m in order <==> Abandoned(w.db.messages[m], w.db.now)
    ensures
      var (was, end) := (w.db.messages[m], Exec(w, Steps(Sweep(r, order))).db);
      && m in end.messages
      && end.messages[m] == if Abandoned(was, w.db.now)
                            then was.(holder := None, claimedAt := None, claimedKey := None, token := None, leaseEnd := None)
                            else was
  {
    SweepIsWhole(w, r, order);
    SelectsAbandoned(w.db.messages, w.db.now);
    AckSafety.SweptRows(w.db, order, w.db.now, m);
  }
}
