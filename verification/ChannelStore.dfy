/** The membership half of the store as a mutable object. Every method is one request, proved against module Membership. */
module ChannelStore {
  import opened Common
  import opened Membership

  class MembershipStore {
    var channels: map<ChannelId, Channel>
    var seats: set<Seat>
    var events: map<nat, Event>
    var archive: map<nat, Event>
    var nextEvent: nat
    var invitations: map<InvitationId, Invitation>
    var pastInvitations: map<InvitationId, Invitation>
    var requests: map<RequestId, Request>
    ghost var usedChannels: set<ChannelId>

    ghost function View(): Db
      reads this
    {
      Db(channels, seats, events, archive, nextEvent, invitations, pastInvitations, requests, usedChannels)
    }

    /** What module Membership proves of every reachable state: the seats are the replay of the log, foreign keys hold,
     *  and nobody waits twice. Every method keeps it. */
    ghost predicate Valid()
      reads this
    {
      Inv(View()) && OnePending(requests)
    }

    constructor ()
      ensures Valid() && View() == EMPTY
    {
      channels, seats, events, archive, nextEvent := map[], {}, map[], map[], 0;
      invitations, pastInvitations, requests, usedChannels := map[], map[], map[], {};
    }

    method GrantChannelAccess(c: ChannelId, key: KeyId)
      modifies this`seats
      ensures View() == Grant(old(View()), c, key)
    {
      if Seat(c, key) !in seats { seats := seats + {Seat(c, key)}; }
    }

    method RecordEvent(now: Time, c: ChannelId, kind: Kind, actor: KeyId, subject: Option<KeyId>, i: Option<InvitationId>)
      modifies this`events, this`nextEvent
      ensures View() == Record(old(View()), now, c, kind, actor, subject, i)
    {
      events := events[nextEvent := Event(c, kind, actor, subject, i, now, now + TTL)];
      nextEvent := nextEvent + 1;
    }

    /** The seat table answers as the whole log does. */
    method CheckChannelAccess(c: ChannelId, key: KeyId, team: Option<TeamId>) returns (allowed: bool)
      requires Valid() && c in channels
      ensures allowed == CanAccess(View(), c, key, team)
      ensures allowed <==>
                || !channels[c].restricted || key == channels[c].owner
                || (team.Some? && channels[c].team == team)
                || key in Replay(archive + events, c, channels[c].owner, nextEvent)
    {
      var channel := channels[c];
      assert Agrees(View(), c);
      assert Seat(c, key) in seats <==> key in Members(View(), c);
      if !channel.restricted { return true; }
      if key == channel.owner { return true; }
      if channel.team.Some? && team.Some? && channel.team.value == team.value { return true; }
      return Seat(c, key) in seats;
    }

    method ResolveChannel(c: ChannelId, key: KeyId, team: Option<TeamId>) returns (refusal: Option<Reply>)
      requires Valid()
      ensures refusal == Refusal(View(), c, key, team)
    {
      if c !in channels { return Some(NotFound); }
      var allowed := CheckChannelAccess(c, key, team);
      return if allowed then None else Some(NoAccess);
    }

    method AddChannelMember(now: Time, c: ChannelId, member: KeyId, key: KeyId, team: Option<TeamId>) returns (reply: Reply)
      requires Valid()
      modifies this`seats, this`events, this`nextEvent
      ensures Valid()
      ensures (View(), reply) == Added(old(View()), now, c, member, key, team)
    {
      AddedKeeps(View(), now, c, member, key, team);
      var refusal := ResolveChannel(c, key, team);
      if refusal.Some? { return refusal.value; }
      if key != channels[c].owner { return OwnerOnly; }
      GrantChannelAccess(c, member);
      RecordEvent(now, c, MemberAdded, key, Some(member), None);
      return Done;
    }

    method RemoveChannelMember(now: Time, c: ChannelId, member: KeyId, key: KeyId, team: Option<TeamId>) returns (reply: Reply)
      requires Valid()
      modifies this`seats, this`events, this`nextEvent
      ensures Valid()
      ensures (View(), reply) == Removed(old(View()), now, c, member, key, team)
    {
      RemovedKeeps(View(), now, c, member, key, team);
      var refusal := ResolveChannel(c, key, team);
      if refusal.Some? { return refusal.value; }
      if key != channels[c].owner { return OwnerOnly; }
      if member == channels[c].owner { return CannotRemoveOwner; }
      seats := seats - {Seat(c, member)};
      RecordEvent(now, c, MemberRemoved, key, Some(member), None);
      return Done;
    }

    /** The identifier is drawn at random; Clash is a repeated draw. */
    method CreateChannelInvitation(now: Time, i: InvitationId, c: ChannelId, key: KeyId, team: Option<TeamId>) returns (reply: Reply)
      requires Valid()
      modifies this`invitations
      ensures Valid()
      ensures (View(), reply) == Invited(old(View()), now, i, c, key, team)
    {
      InviteKeeps(View(), now, i, c, key);
      var refusal := ResolveChannel(c, key, team);
      if refusal.Some? { return refusal.value; }
      if i in invitations || i in pastInvitations { return Clash; }
      invitations := invitations[i := Invitation(c, key, now, now + TTL, None)];
      return Done;
    }

    method GetChannelInvitation(now: Time, i: InvitationId, key: KeyId) returns (reply: Reply)
      requires Valid()
      modifies this`seats, this`events, this`nextEvent
      ensures Valid()
      ensures (View(), reply) == Resolved(old(View()), now, i, key)
    {
      if i in invitations { ResolveKeeps(View(), now, i, invitations[i], key); }
      if i !in invitations { return NotFound; }
      var invitation := invitations[i];
      if invitation.revokedAt.Some? { return InviteRevoked; }
      if invitation.expiresAt <= now { return InviteExpired; }
      GrantChannelAccess(invitation.channel, key);
      RecordEvent(now, invitation.channel, InvitationResolved, key, Some(key), Some(i));
      return Done;
    }

    method RevokeChannelInvitation(now: Time, i: InvitationId, key: KeyId) returns (reply: Reply)
      requires Valid()
      modifies this`invitations, this`events, this`nextEvent
      ensures Valid()
      ensures (View(), reply) == Revoked(old(View()), now, i, key)
    {
      RevokedKeeps(View(), now, i, key);
      if i !in invitations { return NotFound; }
      var invitation := invitations[i];
      if invitation.revokedAt.None? {
        invitations := invitations[i := invitation.(revokedAt := Some(now))];
        RecordEvent(now, invitation.channel, InvitationRevoked, key, None, Some(i));
      }
      return Done;
    }

    /** SELECT ... WHERE channel_id = c AND requester_key_id = key AND status = 'pending'. */
    method FindPending(c: ChannelId, key: KeyId) returns (pending: Option<RequestId>)
      ensures PendingOk(View(), c, key, pending)
    {
      var left := requests.Keys;
      while left != {}
        invariant left <= requests.Keys
        invariant forall r :: r in requests && r !in left ==> !Asked(View(), r, c, key)
      {
        var r :| r in left;
        if requests[r] == Request(c, key, Undecided) { return Some(r); }
        left := left - {r};
      }
      return None;
    }

    method CreateAccessRequest(r: RequestId, c: ChannelId, key: KeyId) returns (reply: Reply)
      requires Valid()
      modifies this`requests
      ensures Valid()
      ensures (View(), reply) == Requested(old(View()), r, c, key, PendingRequest(old(View()), c, key))
    {
      RequestedKeeps(View(), r, c, key, PendingRequest(View(), c, key));
      AskKeepsOne(View(), r, c, key, PendingRequest(View(), c, key));
      if c !in channels { return NotFound; }
      if !channels[c].restricted { return Open; }
      if key == channels[c].owner || Seat(c, key) in seats { return AlreadyMember; }
      var pending := FindPending(c, key);
      AskKeepsOne(View(), r, c, key, pending);
      if pending.Some? { return Waiting(pending.value); }
      if r in requests { return Clash; }
      requests := requests[r := Request(c, key, Undecided)];
      return Waiting(r);
    }

    method ResolveAccessRequest(now: Time, r: RequestId, c: ChannelId, key: KeyId, approve: bool) returns (reply: Reply)
      requires Valid()
      modifies this`seats, this`events, this`nextEvent, this`requests
      ensures Valid()
      ensures (View(), reply) == Decided(old(View()), now, r, c, key, approve)
    {
      if r in requests { DecideKeeps(View(), now, r, requests[r], key, approve); }
      DecideKeepsOne(requests, r, approve);
      if c !in channels { return NotFound; }
      if key != channels[c].owner { return OwnerOnly; }
      if r !in requests || requests[r].channel != c { return NotFound; }
      if requests[r].status != Undecided { return AlreadyDecided; }
      if approve {
        GrantChannelAccess(c, requests[r].requester);
        RecordEvent(now, c, MemberAdded, key, Some(requests[r].requester), None);
      }
      requests := requests[r := requests[r].(status := if approve then Approved else Denied)];
      return Done;
    }

    method CreateChannel(c: ChannelId, key: KeyId, restricted: bool, team: Option<TeamId>)
      requires Valid() && c !in usedChannels
      modifies this`channels, this`seats, this`usedChannels
      ensures Valid()
      ensures View() == Created(old(View()), c, key, restricted, team).0
    {
      CreatedKeeps(View(), c, key, restricted, team);
      channels := channels[c := Channel(key, restricted, team)];
      usedChannels := usedChannels + {c};
      GrantChannelAccess(c, key);
    }

    /** DELETE FROM channels WHERE id = c, with ON DELETE CASCADE. */
    method Cascade(c: ChannelId)
      modifies this`channels, this`seats, this`events, this`invitations
      ensures View() == var db := old(View());
                        db.(channels := db.channels - {c}, seats := OtherSeats(db, c), events := OtherEvents(db, c),
                            invitations := OtherInvitations(db, c))
    {
      channels := channels - {c};
      seats := set s | s in seats && s.channel != c;
      events := map e | e in events && events[e].channel != c :: events[e];
      invitations := map i | i in invitations && invitations[i].channel != c :: invitations[i];
    }

    method DeleteChannel(c: ChannelId, key: KeyId, team: Option<TeamId>) returns (reply: Reply)
      requires Valid()
      modifies this`channels, this`seats, this`events, this`invitations
      ensures Valid()
      ensures (View(), reply) == Dropped(old(View()), c, key, team)
    {
      DroppedKeeps(View(), c, key, team);
      var refusal := ResolveChannel(c, key, team);
      if refusal.Some? { return refusal.value; }
      if key != channels[c].owner { return OwnerOnly; }
      Cascade(c);
      return Done;
    }

    method ArchiveInvitations(now: Time) returns (archived: nat)
      modifies this`pastInvitations
      ensures var spent := SpentInvitations(old(View()), now);
              && archived == |spent|
              && pastInvitations == old(pastInvitations) + map i | i in spent :: invitations[i]
    {
      var spent := set i | i in invitations && (invitations[i].expiresAt <= now || invitations[i].revokedAt.Some?);
      var left := spent;
      archived := 0;
      while left != {}
        invariant left <= spent && archived + |left| == |spent|
        invariant pastInvitations == old(pastInvitations) + map i | i in spent - left :: invitations[i]
      {
        var i :| i in left;
        pastInvitations := pastInvitations[i := invitations[i]];
        archived := archived + 1;
        left := left - {i};
      }
      assert spent - left == spent == SpentInvitations(old(View()), now);
    }

    method ArchiveEvents(now: Time) returns (archived: nat)
      modifies this`archive
      ensures var expired := ExpiredEvents(old(View()), now);
              && archived == |expired|
              && archive == old(archive) + map e | e in expired :: events[e]
    {
      var expired := set e | e in events && events[e].expiresAt <= now;
      var left := expired;
      archived := 0;
      while left != {}
        invariant left <= expired && archived + |left| == |expired|
        invariant archive == old(archive) + map e | e in expired - left :: events[e]
      {
        var e :| e in left;
        archive := archive[e := events[e]];
        archived := archived + 1;
        left := left - {e};
      }
      assert expired - left == expired == ExpiredEvents(old(View()), now);
    }

    /** DELETE FROM channel_invitations and channel_events by the conditions of the listings. */
    method PurgeMembership(now: Time) returns (purgedInvitations: nat, purgedEvents: nat)
      modifies this`events, this`invitations
      ensures var db := old(View());
              && purgedInvitations == |SpentInvitations(db, now)| && purgedEvents == |ExpiredEvents(db, now)|
              && View() == db.(invitations := db.invitations - SpentInvitations(db, now), events := db.events - ExpiredEvents(db, now))
    {
      var spent := set i | i in invitations && (invitations[i].expiresAt <= now || invitations[i].revokedAt.Some?);
      assert spent == SpentInvitations(old(View()), now);
      purgedInvitations := |spent|;
      invitations := invitations - spent;
      var expired := set e | e in events && events[e].expiresAt <= now;
      assert expired == ExpiredEvents(old(View()), now);
      purgedEvents := |expired|;
      events := events - expired;
    }

    /** The invitation and event part of a cleanup: archive row by row, then delete by the same condition. */
    method CleanupMembership(now: Time) returns (archivedInvitations: nat, purgedInvitations: nat, archivedEvents: nat, purgedEvents: nat)
      requires Valid()
      modifies this`events, this`archive, this`invitations, this`pastInvitations
      ensures Valid() && View() == Cleaned(old(View()), now)
      ensures archivedInvitations == purgedInvitations == |SpentInvitations(old(View()), now)|
      ensures archivedEvents == purgedEvents == |ExpiredEvents(old(View()), now)|
    {
      CleanedKeeps(View(), now);
      archivedInvitations := ArchiveInvitations(now);
      archivedEvents := ArchiveEvents(now);
      SameListings(old(View()), View(), now);
      purgedInvitations, purgedEvents := PurgeMembership(now);
    }
  }

  lemma SameListings(was: Db, db: Db, now: Time)
    requires db.invitations == was.invitations && db.events == was.events
    ensures SpentInvitations(db, now) == SpentInvitations(was, now) && ExpiredEvents(db, now) == ExpiredEvents(was, now)
  {
  }
}
