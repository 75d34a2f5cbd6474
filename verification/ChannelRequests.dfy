/** What each membership request answers and what it leaves, told from the tables: who gets in, who is refused and why,
 *  and that a decision and a revocation stand. */
module ChannelRequests {
  import opened Common
  import opened Membership

  /** The channel exists and the key may use it. */
  predicate Inside(db: Db, c: ChannelId, key: KeyId, team: Option<TeamId>) {
    && c in db.channels
    && var channel := db.channels[c];
       !channel.restricted || key == channel.owner || (team != None && team == channel.team) || Seat(c, key) in db.seats
  }

  predicate Owns(db: Db, c: ChannelId, key: KeyId) { c in db.channels && key == db.channels[c].owner }

  /** What an owner's request answers to anyone else. */
  predicate Turned(db: Db, c: ChannelId, key: KeyId, team: Option<TeamId>, reply: Reply) {
    && (reply == NotFound <==> c !in db.channels)
    && (reply == NoAccess <==> c in db.channels && !Inside(db, c, key, team))
    && (reply == OwnerOnly <==> Inside(db, c, key, team) && !Owns(db, c, key))
  }

  /** One event is added to the log, to stay live for a day, and these are the seats. */
  ghost predicate Logs(db: Db, after: Db, seats: set<Seat>, now: Time, c: ChannelId, kind: Kind, actor: KeyId,
                       subject: Option<KeyId>, i: Option<InvitationId>) {
    && after == db.(seats := seats, events := after.events, nextEvent := db.nextEvent + 1)
    && after.events == db.events[db.nextEvent := Event(c, kind, actor, subject, i, now, now + 86_400 * SECOND)]
  }

  /** The owner, and only the owner, adds a member: whoever it is has a seat, and the log says so. */
  lemma AddAnswers(db: Db, now: Time, c: ChannelId, member: KeyId, key: KeyId, team: Option<TeamId>)
    ensures
      var (after, reply) := Added(db, now, c, member, key, team);
      && (reply == Done <==> Owns(db, c, key)) && Turned(db, c, key, team, reply)
      && (reply != Done ==> after == db)
      && (reply == Done ==> Logs(db, after, db.seats + {Seat(c, member)}, now, c, MemberAdded, key, Some(member), None))
  {
  }

  /** Only the owner removes a member, and never itself. */
  lemma RemoveAnswers(db: Db, now: Time, c: ChannelId, member: KeyId, key: KeyId, team: Option<TeamId>)
    ensures
      var (after, reply) := Removed(db, now, c, member, key, team);
      && (reply == Done <==> Owns(db, c, key) && member != key) && Turned(db, c, key, team, reply)
      && (reply == CannotRemoveOwner <==> Owns(db, c, key) && member == key)
      && (reply != Done ==> after == db)
      && (reply == Done ==> Logs(db, after, db.seats - {Seat(c, member)}, now, c, MemberRemoved, key, Some(member), None))
  {
  }

  /** Adding a member and removing it again leaves the seats as they were without it. */
  lemma RemoveUndoesAdd(db: Db, now: Time, later: Time, c: ChannelId, member: KeyId, key: KeyId, team: Option<TeamId>)
    requires Owns(db, c, key) && member != key && Seat(c, member) !in db.seats
    ensures Removed(Added(db, now, c, member, key, team).0, later, c, member, key, team).1 == Done
    ensures Removed(Added(db, now, c, member, key, team).0, later, c, member, key, team).0.seats == db.seats
  {
    AddAnswers(db, now, c, member, key, team);
    RemoveAnswers(Added(db, now, c, member, key, team).0, later, c, member, key, team);
  }

  /** Anyone who may use the channel issues an invitation, for a day. */
  lemma InviteAnswers(db: Db, now: Time, i: InvitationId, c: ChannelId, key: KeyId, team: Option<TeamId>)
    ensures
      var (after, reply) := Invited(db, now, i, c, key, team);
      var taken := i in db.invitations || i in db.pastInvitations;
      && (reply == Done <==> Inside(db, c, key, team) && !taken) && (reply == Clash <==> Inside(db, c, key, team) && taken)
      && (reply == NotFound <==> c !in db.channels) && (reply == NoAccess <==> c in db.channels && !Inside(db, c, key, team))
      && (reply != Done ==> after == db)
      && (reply == Done ==>
            && after == db.(invitations := after.invitations)
            && after.invitations == db.invitations[i := Invitation(c, key, now, now + 86_400 * SECOND, None)])
  {
  }

  /** An invitation seats whoever resolves it exactly while it is neither revoked nor a day old; the log says who. */
  lemma ResolveAnswers(db: Db, now: Time, i: InvitationId, key: KeyId)
    requires Inv(db)
    ensures
      var (after, reply) := Resolved(db, now, i, key);
      && (reply == NotFound <==> i !in db.invitations)
      && (reply == InviteRevoked <==> i in db.invitations && db.invitations[i].revokedAt != None)
      && (reply == InviteExpired
          <==> i in db.invitations && db.invitations[i].revokedAt == None && now >= db.invitations[i].expiresAt)
      && (reply == Done <==> i in db.invitations && db.invitations[i].revokedAt == None && now < db.invitations[i].expiresAt)
      && (reply != Done ==> after == db)
      && (reply == Done ==>
            var c := db.invitations[i].channel;
            Logs(db, after, db.seats + {Seat(c, key)}, now, c, InvitationResolved, key, Some(key), Some(i)))
  {
  }

  /** The first revocation is stamped and logged; the time of the first is never overwritten. */
  lemma RevokeAnswers(db: Db, now: Time, i: InvitationId, key: KeyId)
    ensures
      var (after, reply) := Revoked(db, now, i, key);
      && (reply == NotFound <==> i !in db.invitations) && (reply == Done <==> i in db.invitations)
      && (i in db.invitations && db.invitations[i].revokedAt == None ==>
            && Logs(db, after.(invitations := db.invitations), db.seats, now, db.invitations[i].channel, InvitationRevoked, key, None, Some(i))
            && after.invitations == db.invitations[i := db.invitations[i].(revokedAt := Some(now))])
      && (i !in db.invitations || db.invitations[i].revokedAt != None ==> after == db)
  {
  }

  /** Asking for access: only a stranger to a restricted channel comes to wait, under the identifier of its first request
   *  as long as that is undecided. */
  lemma AskAnswers(db: Db, r: RequestId, c: ChannelId, key: KeyId)
    ensures
      var (after, reply) := Requested(db, r, c, key, PendingRequest(db, c, key));
      var stranger := c in db.channels && db.channels[c].restricted && key != db.channels[c].owner && Seat(c, key) !in db.seats;
      var waits := exists x :: x in db.requests && db.requests[x] == Membership.Request(c, key, Undecided);
      && (reply == NotFound <==> c !in db.channels)
      && (reply == Open <==> c in db.channels && !db.channels[c].restricted)
      && (reply == AlreadyMember <==> c in db.channels && db.channels[c].restricted && !stranger)
      && (stranger && waits ==> after == db && reply.Waiting? && reply.request in db.requests
                                && db.requests[reply.request] == Membership.Request(c, key, Undecided))
      && (stranger && !waits && r !in db.requests ==>
            reply == Waiting(r) && after == db.(requests := db.requests[r := Membership.Request(c, key, Undecided)]))
      && (!stranger || waits || r in db.requests ==> after == db)
  {
    forall x | x in db.requests ensures Asked(db, x, c, key) <==> db.requests[x] == Membership.Request(c, key, Undecided) { }
  }

  /** Only the owner decides, only a request of its channel, and only once. Approval seats the requester and is logged;
   *  denial changes nothing but the request, which from then on says which of the two it was. */
  lemma DecideAnswers(db: Db, now: Time, r: RequestId, c: ChannelId, key: KeyId, approve: bool)
    ensures
      var (after, reply) := Decided(db, now, r, c, key, approve);
      var mine := Owns(db, c, key) && r in db.requests && db.requests[r].channel == c;
      var ruling := if approve then Approved else Denied;
      && (reply == Done <==> mine && db.requests[r].status == Undecided)
      && (reply == AlreadyDecided <==> mine && db.requests[r].status != Undecided)
      && (reply == OwnerOnly <==> c in db.channels && !Owns(db, c, key))
      && (reply == NotFound <==> c !in db.channels || (Owns(db, c, key) && !mine))
      && (reply != Done ==> after == db)
      && (reply == Done ==>
            && after.requests == db.requests[r := db.requests[r].(status := ruling)]
            && var who := db.requests[r].requester;
               if approve
               then Logs(db, after.(requests := db.requests), db.seats + {Seat(c, who)}, now, c, MemberAdded, key, Some(who), None)
               else after.(requests := db.requests) == db)
  {
  }

  /** The owner's delete takes the channel and everything live that hangs on it, and nothing else. */
  lemma DropAnswers(db: Db, c: ChannelId, key: KeyId, team: Option<TeamId>)
    ensures
      var (after, reply) := Dropped(db, c, key, team);
      && (reply == Done <==> Owns(db, c, key)) && Turned(db, c, key, team, reply)
      && (reply != Done ==> after == db)
      && (reply == Done ==>
            && after == db.(channels := db.channels - {c}, seats := after.seats, events := after.events, invitations := after.invitations)
            && (forall s :: s in after.seats <==> s in db.seats && s.channel != c)
            && (forall e :: e in after.events <==> e in db.events && db.events[e].channel != c)
            && (forall e :: e in after.events ==> after.events[e] == db.events[e])
            && (forall i :: i in after.invitations <==> i in db.invitations && db.invitations[i].channel != c)
            && (forall i :: i in after.invitations ==> after.invitations[i] == db.invitations[i]))
  {
  }

  /** A cleanup moves the events that are a day old to the archive as they stand; the whole log is the same. */
  lemma CleanupMovesEvents(db: Db, now: Time)
    requires Inv(db)
    ensures
      var after := Cleaned(db, now);
      && after == db.(events := after.events, archive := after.archive,
                      invitations := after.invitations, pastInvitations := after.pastInvitations)
      && (forall e :: e in after.events <==> e in db.events && db.events[e].expiresAt > now)
      && (forall e :: e in after.archive <==> e in db.archive || (e in db.events && db.events[e].expiresAt <= now))
      && (forall e :: e in after.events ==> after.events[e] == db.events[e])
      && (forall e :: e in after.archive ==> after.archive[e] == if e in db.archive then db.archive[e] else db.events[e])
  {
  }

  /** And likewise the invitations that are a day old or revoked. */
  lemma CleanupMovesInvitations(db: Db, now: Time)
    requires forall i :: i in db.pastInvitations ==> i !in db.invitations
    ensures
      var after := Cleaned(db, now);
      && (forall i :: i in after.invitations
            <==> i in db.invitations && db.invitations[i].expiresAt > now && db.invitations[i].revokedAt == None)
      && (forall i :: i in after.pastInvitations
            <==> i in db.pastInvitations || (i in db.invitations && i !in after.invitations))
      && (forall i :: i in after.invitations ==> after.invitations[i] == db.invitations[i])
      && (forall i :: i in after.pastInvitations ==>
            after.pastInvitations[i] == if i in db.pastInvitations then db.pastInvitations[i] else db.invitations[i])
  {
  }

  /** A new channel belongs to its creator, who is its only member; no other channel is touched. */
  lemma CreateLeaves(db: Db, c: ChannelId, key: KeyId, restricted: bool, team: Option<TeamId>)
    requires Inv(db) && c !in db.usedChannels
    ensures
      var (after, reply) := Created(db, c, key, restricted, team);
      && reply == Done
      && after == db.(channels := db.channels[c := Channel(key, restricted, team)], seats := after.seats,
                      usedChannels := db.usedChannels + {c})
      && (forall s :: s in after.seats <==> s in db.seats || s == Seat(c, key))
      && (forall k :: Seat(c, k) in after.seats <==> k == key)
  {
  }

  /** Whoever may use a channel may open or restrict it; its owner and team and everything else stay. */
  lemma AccessAnswers(db: Db, c: ChannelId, key: KeyId, team: Option<TeamId>, restricted: bool)
    ensures
      var (after, reply) := AccessSet(db, c, key, team, restricted);
      && (reply == Done <==> Inside(db, c, key, team)) && (reply == NotFound <==> c !in db.channels)
      && (reply == NoAccess <==> c in db.channels && !Inside(db, c, key, team))
      && (reply != Done ==> after == db)
      && (reply == Done ==>
            after == db.(channels := db.channels[c := Channel(db.channels[c].owner, restricted, db.channels[c].team)]))
  {
  }

  // ---------- what stands ----------

  /** Step n rules on request r; an approval needs the requester's channel to be there still. */
  ghost predicate RulesOn(run: seq<Step>, n: nat, r: RequestId) {
    && n < |run| && run[n].op.Decide? && run[n].op.r == r && r in Exec(run[..n]).requests
    && (run[n].op.approve ==> run[n].op.asked.channel in Exec(run[..n]).channels)
  }

  lemma AskFrame(db: Db, step: Step)
    requires step.op.Ask?
    ensures
      var (r, waiting) := (step.op.r, Membership.Request(step.op.c, step.op.key, Undecided));
      Next(db, step).requests == db.requests || (r !in db.requests && Next(db, step).requests == db.requests[r := waiting])
  {
  }

  lemma DecideFrame(db: Db, step: Step)
    requires step.op.Decide?
    ensures
      var (r, rules) := (step.op.r, step.op.approve ==> step.op.asked.channel in db.channels);
      var ruling := if step.op.approve then Approved else Denied;
      Next(db, step).requests
      == if rules && r in db.requests then db.requests[r := db.requests[r].(status := ruling)] else db.requests
  {
    assert Next(db, step) == DecideUpdate(db, step.now, step.op.r, step.op.asked, step.op.key, step.op.approve).0;
  }

  lemma NextStatus(db: Db, step: Step, r: RequestId)
    requires r in Next(db, step).requests
    ensures r !in db.requests ==> Next(db, step).requests[r].status == Undecided
    ensures
      var rules := step.op.Decide? && step.op.r == r && (step.op.approve ==> step.op.asked.channel in db.channels);
      r in db.requests ==>
        Next(db, step).requests[r] == if rules then db.requests[r].(status := if step.op.approve then Approved else Denied) else db.requests[r]
  {
    match step.op
    case Ask(x, c, key) => AskFrame(db, step);
    case Decide(x, asked, key, approve) => DecideFrame(db, step);
    case _ => RequestsFrame(db, step);
  }

  /** The status says that nothing was ruled on the request, or what was ruled last. */
  ghost predicate Reflects(run: seq<Step>, r: RequestId, status: Status) {
    && (status == Undecided <==> forall n: nat :: !RulesOn(run, n, r))
    && (forall n: nat :: RulesOn(run, n, r) && (forall k: nat :: n < k ==> !RulesOn(run, k, r)) ==>
          status == if run[n].op.approve then Approved else Denied)
  }

  lemma RuledLast(run: seq<Step>, r: RequestId, status: Status)
    requires run != [] && RulesOn(run, |run| - 1, r)
    requires status == if run[|run| - 1].op.approve then Approved else Denied
    ensures Reflects(run, r, status)
  {
  }

  lemma NotRuledLast(run: seq<Step>, r: RequestId, status: Status)
    requires run != [] && !RulesOn(run, |run| - 1, r) && Reflects(run[..|run| - 1], r, status)
    ensures Reflects(run, r, status)
  {
    var init := run[..|run| - 1];
    forall n: nat ensures RulesOn(run, n, r) <==> RulesOn(init, n, r) {
      if n < |init| { assert init[..n] == run[..n]; }
    }
  }

  /** In every interleaving a request is undecided exactly as long as no decision on it has been written, and afterwards
   *  it says what the latest of them was. */
  lemma {:induction false} StatusIsLastRuling(run: seq<Step>, r: RequestId)
    requires r in Exec(run).requests
    ensures Reflects(run, r, Exec(run).requests[r].status)
  {
    var last := |run| - 1;
    NextStatus(Exec(run[..last]), run[last], r);
    if r in Exec(run[..last]).requests { StatusIsLastRuling(run[..last], r); } else { NeverRuled(run[..last], r); }
    if RulesOn(run, last, r) {
      RuledLast(run, r, Exec(run).requests[r].status);
    } else {
      NotRuledLast(run, r, Exec(run).requests[r].status);
    }
  }

  /** Requests are never removed, so none was ruled on before it was there. */
  lemma {:induction false} NeverRuled(run: seq<Step>, r: RequestId)
    requires r !in Exec(run).requests
    ensures forall n: nat :: n <= |run| ==> r !in Exec(run[..n]).requests
    ensures forall n: nat :: !RulesOn(run, n, r)
  {
    assert run[..|run|] == run;
    if run != [] {
      var last := |run| - 1;
      if r in Exec(run[..last]).requests { RequestsStay(Exec(run[..last]), run[last], r); }
      NeverRuled(run[..last], r);
      forall n: nat | n <= last ensures r !in Exec(run[..n]).requests { assert run[..last][..n] == run[..n]; }
    }
  }

  lemma RequestsStay(db: Db, step: Step, r: RequestId)
    requires r in db.requests
    ensures r in Next(db, step).requests
  {
    match step.op
    case Ask(x, c, key) => AskFrame(db, step);
    case Decide(x, asked, key, approve) => DecideFrame(db, step);
    case _ => RequestsFrame(db, step);
  }

  /** The invitation is gone or revoked. */
  predicate Dead(db: Db, i: InvitationId) { i in db.invitations ==> db.invitations[i].revokedAt != None }

  lemma NextDead(db: Db, step: Step, i: InvitationId)
    requires Dead(db, i) && !(step.op.Invite? && step.op.i == i)
    ensures Dead(Next(db, step), i)
  {
    match step.op
    case Invite(x, c, key) => assert Next(db, step) == InviteRow(db, step.now, x, c, key).0;
    case Revoke(x, key) => RevokeAnswers(db, step.now, x, key);
    case _ =>
      if Seating(step.op) { SeatingFrame(db, step); } else { TablePreserves(db, step, i); DeadFrame(db, step, i); }
  }

  lemma DeadFrame(db: Db, step: Step, i: InvitationId)
    requires !Seating(step.op) && !step.op.Invite? && !step.op.Revoke?
    ensures i in Next(db, step).invitations ==> i in db.invitations && Next(db, step).invitations[i] == db.invitations[i]
  {
    match step.op
    case CreateChannel(c, key, restricted, team) => assert Next(db, step) == Created(db, c, key, restricted, team).0;
    case SetAccess(c, key, team, restricted) => assert Next(db, step) == AccessSet(db, c, key, team, restricted).0;
    case DropChannel(c, key, team) => DropAnswers(db, c, key, team);
    case Cleanup => assert Next(db, step) == Cleaned(db, step.now);
    case _ =>
  }

  /** Once revoked or gone, an invitation is never resolved again by a request that reads it then, whatever happens in
   *  between, unless its identifier is drawn a second time. */
  lemma {:induction false} RevokedForGood(db: Db, steps: seq<Step>, i: InvitationId, now: Time, key: KeyId)
    requires Dead(db, i) && forall n :: 0 <= n < |steps| ==> !(steps[n].op.Invite? && steps[n].op.i == i)
    ensures
      var later := After(db, steps);
      Dead(later, i) && Resolved(later, now, i, key).0 == later && Resolved(later, now, i, key).1 in {NotFound, InviteRevoked}
  {
    if steps != [] {
      var last := |steps| - 1;
      RevokedForGood(db, steps[..last], i, now, key);
      NextDead(After(db, steps[..last]), steps[last], i);
    }
  }

  /** The tables after some steps. */
  ghost function After(db: Db, steps: seq<Step>): Db {
    if steps == [] then db else Next(After(db, steps[..|steps| - 1]), steps[|steps| - 1])
  }
}
