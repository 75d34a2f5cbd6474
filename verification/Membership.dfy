/** Who may read a restricted channel: members, invitations, access requests, and the event log that records them. */
module Membership {
  import opened Common

  type ChannelId = nat
  type KeyId = nat
  type TeamId = nat
  type InvitationId = nat
  type RequestId = nat

  const TTL: Time := DAY

  datatype Channel = Channel(owner: KeyId, restricted: bool, team: Option<TeamId>)
  datatype Seat = Seat(channel: ChannelId, key: KeyId)
  datatype Kind = MemberAdded | MemberRemoved | InvitationResolved | InvitationRevoked
  datatype Event = Event(
    channel: ChannelId, kind: Kind, actor: KeyId, subject: Option<KeyId>, invitation: Option<InvitationId>,
    createdAt: Time, expiresAt: Time)
  datatype Invitation = Invitation(
    channel: ChannelId, creator: KeyId, createdAt: Time, expiresAt: Time, revokedAt: Option<Time>)
  datatype Status = Undecided | Approved | Denied
  datatype Request = Request(channel: ChannelId, requester: KeyId, status: Status)

  /** Events carry the serial of their insertion; a cleanup moves them to the archive under the same serial. */
  datatype Db = Db(
    channels: map<ChannelId, Channel>,
    seats: set<Seat>,
    events: map<nat, Event>,
    archive: map<nat, Event>,
    nextEvent: nat,
    invitations: map<InvitationId, Invitation>,
    pastInvitations: map<InvitationId, Invitation>,
    requests: map<RequestId, Request>,
    usedChannels: set<ChannelId>)

  const EMPTY := Db(map[], {}, map[], map[], 0, map[], map[], map[], {})

  datatype Reply =
    | Done | Open | AlreadyMember | Waiting(request: RequestId)
    | NotFound | NoAccess | OwnerOnly | CannotRemoveOwner | AlreadyDecided | InviteRevoked | InviteExpired | Clash | Broken

  /** What changes the tables, one step each. Issuing and resolving an invitation and deciding a request read first and
   *  write later; here are their writes, with what was read. The reads are in module Admission. */
  datatype Op =
    | CreateChannel(c: ChannelId, key: KeyId, restricted: bool, team: Option<TeamId>)
    | SetAccess(c: ChannelId, key: KeyId, team: Option<TeamId>, restricted: bool)
    | AddMember(c: ChannelId, member: KeyId, key: KeyId, team: Option<TeamId>)
    | RemoveMember(c: ChannelId, member: KeyId, key: KeyId, team: Option<TeamId>)
    | Invite(i: InvitationId, c: ChannelId, key: KeyId)
    | Resolve(i: InvitationId, seen: Invitation, key: KeyId)
    | Revoke(i: InvitationId, key: KeyId)
    | Ask(r: RequestId, c: ChannelId, key: KeyId)
    | Decide(r: RequestId, asked: Request, key: KeyId, approve: bool)
    | DropChannel(c: ChannelId, key: KeyId, team: Option<TeamId>)
    | Cleanup
    | Pause

  // ---------- what each request does ----------

  predicate CanAccess(db: Db, c: ChannelId, key: KeyId, team: Option<TeamId>)
    requires c in db.channels
  {
    || !db.channels[c].restricted
    || key == db.channels[c].owner
    || (team.Some? && db.channels[c].team == team)
    || Seat(c, key) in db.seats
  }

  function Grant(db: Db, c: ChannelId, key: KeyId): Db { db.(seats := db.seats + {Seat(c, key)}) }

  function Record(db: Db, now: Time, c: ChannelId, kind: Kind, actor: KeyId, subject: Option<KeyId>, i: Option<InvitationId>): Db {
    db.(events := db.events[db.nextEvent := Event(c, kind, actor, subject, i, now, now + TTL)], nextEvent := db.nextEvent + 1)
  }

  /** Resolving a channel on behalf of a key: it exists and the key may use it. */
  function Refusal(db: Db, c: ChannelId, key: KeyId, team: Option<TeamId>): Option<Reply> {
    if c !in db.channels then Some(NotFound) else if !CanAccess(db, c, key, team) then Some(NoAccess) else None
  }

  function OwnerRefusal(db: Db, c: ChannelId, key: KeyId, team: Option<TeamId>): Option<Reply> {
    match Refusal(db, c, key, team)
    case Some(reply) => Some(reply)
    case None => if key != db.channels[c].owner then Some(OwnerOnly) else None
  }

  /** Identifiers are drawn fresh; Clash stands for one already taken, Broken for a violated foreign key. */
  function Created(db: Db, c: ChannelId, key: KeyId, restricted: bool, team: Option<TeamId>): (Db, Reply) {
    if c in db.usedChannels then (db, Clash)
    else
      (Grant(db.(channels := db.channels[c := Channel(key, restricted, team)], usedChannels := db.usedChannels + {c}), c, key), Done)
  }

  function AccessSet(db: Db, c: ChannelId, key: KeyId, team: Option<TeamId>, restricted: bool): (Db, Reply) {
    match Refusal(db, c, key, team)
    case Some(reply) => (db, reply)
    case None => (db.(channels := db.channels[c := db.channels[c].(restricted := restricted)]), Done)
  }

  function Added(db: Db, now: Time, c: ChannelId, member: KeyId, key: KeyId, team: Option<TeamId>): (Db, Reply) {
    match OwnerRefusal(db, c, key, team)
    case Some(reply) => (db, reply)
    case None => (Record(Grant(db, c, member), now, c, MemberAdded, key, Some(member), None), Done)
  }

  function Removed(db: Db, now: Time, c: ChannelId, member: KeyId, key: KeyId, team: Option<TeamId>): (Db, Reply) {
    match OwnerRefusal(db, c, key, team)
    case Some(reply) => (db, reply)
    case None =>
      if member == db.channels[c].owner then (db, CannotRemoveOwner)
      else (Record(db.(seats := db.seats - {Seat(c, member)}), now, c, MemberRemoved, key, Some(member), None), Done)
  }

  function InviteRow(db: Db, now: Time, i: InvitationId, c: ChannelId, key: KeyId): (Db, Reply) {
    if c !in db.channels then (db, Broken)
    else if i in db.invitations || i in db.pastInvitations then (db, Clash)
    else (db.(invitations := db.invitations[i := Invitation(c, key, now, now + TTL, None)]), Done)
  }

  /** The whole request with nothing in between. */
  function Invited(db: Db, now: Time, i: InvitationId, c: ChannelId, key: KeyId, team: Option<TeamId>): (Db, Reply) {
    match Refusal(db, c, key, team)
    case Some(reply) => (db, reply)
    case None => InviteRow(db, now, i, c, key)
  }

  predicate Active(invitation: Invitation, now: Time) { invitation.revokedAt.None? && now < invitation.expiresAt }

  function ResolveRefusal(db: Db, now: Time, i: InvitationId): Option<Reply> {
    if i !in db.invitations then Some(NotFound)
    else if db.invitations[i].revokedAt.Some? then Some(InviteRevoked)
    else if db.invitations[i].expiresAt <= now then Some(InviteExpired)
    else None
  }

  /** The membership row refers to the channel and, when it is new, to the invitation. */
  predicate CanSeat(db: Db, c: ChannelId, key: KeyId, i: InvitationId) {
    c in db.channels && (Seat(c, key) in db.seats || i in db.invitations)
  }

  function ResolveUpdate(db: Db, now: Time, i: InvitationId, seen: Invitation, key: KeyId): (Db, Reply) {
    if CanSeat(db, seen.channel, key, i)
    then (Record(Grant(db, seen.channel, key), now, seen.channel, InvitationResolved, key, Some(key), Some(i)), Done)
    else (db, Broken)
  }

  /** The whole request with nothing in between. */
  function Resolved(db: Db, now: Time, i: InvitationId, key: KeyId): (Db, Reply) {
    match ResolveRefusal(db, now, i)
    case Some(reply) => (db, reply)
    case None => ResolveUpdate(db, now, i, db.invitations[i], key)
  }

  function Revoked(db: Db, now: Time, i: InvitationId, key: KeyId): (Db, Reply) {
    if i !in db.invitations then (db, NotFound)
    else if db.invitations[i].revokedAt.Some? then (db, Done)
    else
      var revoked := db.invitations[i].(revokedAt := Some(now));
      (Record(db.(invitations := db.invitations[i := revoked]), now, revoked.channel, InvitationRevoked, key, None, Some(i)), Done)
  }

  predicate Asked(db: Db, r: RequestId, c: ChannelId, key: KeyId)
    requires r in db.requests
  {
    db.requests[r] == Request(c, key, Undecided)
  }

  /** A second request by the same key while one is undecided is answered with the first. */
  function Requested(db: Db, r: RequestId, c: ChannelId, key: KeyId, pending: Option<RequestId>): (Db, Reply) {
    if c !in db.channels then (db, NotFound)
    else if !db.channels[c].restricted then (db, Open)
    else if key == db.channels[c].owner || Seat(c, key) in db.seats then (db, AlreadyMember)
    else match pending
      case Some(first) => (db, Waiting(first))
      case None =>
        if r in db.requests then (db, Clash) else (db.(requests := db.requests[r := Request(c, key, Undecided)]), Waiting(r))
  }

  ghost function PendingRequest(db: Db, c: ChannelId, key: KeyId): Option<RequestId> {
    if exists r :: r in db.requests && Asked(db, r, c, key)
    then (var r :| r in db.requests && Asked(db, r, c, key); Some(r))
    else None
  }

  function DecideRefusal(db: Db, r: RequestId, c: ChannelId, key: KeyId): Option<Reply> {
    if c !in db.channels then Some(NotFound)
    else if key != db.channels[c].owner then Some(OwnerOnly)
    else if r !in db.requests || db.requests[r].channel != c then Some(NotFound)
    else if db.requests[r].status != Undecided then Some(AlreadyDecided)
    else None
  }

  function Ruled(requests: map<RequestId, Request>, r: RequestId, approve: bool): map<RequestId, Request> {
    if r in requests then requests[r := requests[r].(status := if approve then Approved else Denied)] else requests
  }

  /** The final UPDATE does not look at the status again. */
  function DecideUpdate(db: Db, now: Time, r: RequestId, seen: Request, key: KeyId, approve: bool): (Db, Reply) {
    if approve && seen.channel !in db.channels then (db, Broken)
    else
      var after :=
        if approve then Record(Grant(db, seen.channel, seen.requester), now, seen.channel, MemberAdded, key, Some(seen.requester), None)
        else db;
      (after.(requests := Ruled(after.requests, r, approve)), Done)
  }

  /** The whole request with nothing in between. */
  function Decided(db: Db, now: Time, r: RequestId, c: ChannelId, key: KeyId, approve: bool): (Db, Reply) {
    match DecideRefusal(db, r, c, key)
    case Some(reply) => (db, reply)
    case None => DecideUpdate(db, now, r, db.requests[r], key, approve)
  }

  function OtherSeats(db: Db, c: ChannelId): set<Seat> { set s | s in db.seats && s.channel != c }

  function OtherEvents(db: Db, c: ChannelId): map<nat, Event> {
    map e | e in db.events && db.events[e].channel != c :: db.events[e]
  }

  function OtherInvitations(db: Db, c: ChannelId): map<InvitationId, Invitation> {
    map i | i in db.invitations && db.invitations[i].channel != c :: db.invitations[i]
  }

  /** Members, invitations and live events go with the channel; archived rows and access requests stay. */
  function Dropped(db: Db, c: ChannelId, key: KeyId, team: Option<TeamId>): (Db, Reply) {
    match OwnerRefusal(db, c, key, team)
    case Some(reply) => (db, reply)
    case None =>
      (db.(channels := db.channels - {c},
           seats := OtherSeats(db, c),
           events := OtherEvents(db, c),
           invitations := OtherInvitations(db, c)), Done)
  }

  function ExpiredEvents(db: Db, now: Time): set<nat> { set e | e in db.events && db.events[e].expiresAt <= now }

  function SpentInvitations(db: Db, now: Time): set<InvitationId> {
    set i | i in db.invitations && (db.invitations[i].expiresAt <= now || db.invitations[i].revokedAt.Some?)
  }

  function Cleaned(db: Db, now: Time): Db {
    var (events, invitations) := (ExpiredEvents(db, now), SpentInvitations(db, now));
    db.(archive := db.archive + map e | e in events :: db.events[e], events := db.events - events,
        pastInvitations := db.pastInvitations + map i | i in invitations :: db.invitations[i],
        invitations := db.invitations - invitations)
  }

  ghost function Apply(db: Db, now: Time, op: Op): (Db, Reply) {
    match op
    case CreateChannel(c, key, restricted, team) => Created(db, c, key, restricted, team)
    case SetAccess(c, key, team, restricted) =>
      AccessSet(db, c, key, team, restricted)
    case AddMember(c, member, key, team) => Added(db, now, c, member, key, team)
    case RemoveMember(c, member, key, team) => Removed(db, now, c, member, key, team)
    case Invite(i, c, key) => InviteRow(db, now, i, c, key)
    case Resolve(i, seen, key) => ResolveUpdate(db, now, i, seen, key)
    case Revoke(i, key) => Revoked(db, now, i, key)
    case Ask(r, c, key) => Requested(db, r, c, key, PendingRequest(db, c, key))
    case Decide(r, seen, key, approve) => DecideUpdate(db, now, r, seen, key, approve)
    case DropChannel(c, key, team) => Dropped(db, c, key, team)
    case Cleanup => (Cleaned(db, now), Done)
    case Pause => (db, Done)
  }

  datatype Step = Step(now: Time, op: Op)

  ghost function Next(db: Db, step: Step): Db { Apply(db, step.now, step.op).0 }

  ghost function Exec(run: seq<Step>): Db {
    if run == [] then EMPTY else Next(Exec(run[..|run| - 1]), run[|run| - 1])
  }

  // ---------- membership replay ----------

  /** The whole log of a state, live and archived. */
  function Log(db: Db): map<nat, Event> { db.archive + db.events }

  function Effect(members: set<KeyId>, e: Event): set<KeyId> {
    if e.subject.None? then members
    else match e.kind
      case MemberAdded => members + {e.subject.value}
      case InvitationResolved => members + {e.subject.value}
      case MemberRemoved => members - {e.subject.value}
      case InvitationRevoked => members
  }

  /** The channel's members by its first n log entries, from the owner alone. */
  function Replay(log: map<nat, Event>, c: ChannelId, owner: KeyId, n: nat): set<KeyId> {
    if n == 0 then {owner}
    else
      var before := Replay(log, c, owner, n - 1);
      if n - 1 in log && log[n - 1].channel == c then Effect(before, log[n - 1]) else before
  }

  function Members(db: Db, c: ChannelId): set<KeyId> { set s | s in db.seats && s.channel == c :: s.key }

  ghost predicate Agrees(db: Db, c: ChannelId)
    requires c in db.channels
  {
    Members(db, c) == Replay(Log(db), c, db.channels[c].owner, db.nextEvent)
  }

  ghost predicate Inv(db: Db) {
    && db.channels.Keys <= db.usedChannels
    && (forall s :: s in db.seats ==> s.channel in db.channels)
    && (forall e :: e in db.events ==> e < db.nextEvent && db.events[e].channel in db.channels)
    && (forall e :: e in db.archive ==> e < db.nextEvent && db.archive[e].channel in db.usedChannels && e !in db.events)
    && (forall i :: i in db.invitations ==> db.invitations[i].channel in db.channels)
    && (forall c :: c in db.channels ==> Agrees(db, c))
  }

  /** Entries about other channels, or past n, change nothing. */
  lemma {:induction false} ReplaySame(log: map<nat, Event>, other: map<nat, Event>, c: ChannelId, owner: KeyId, n: nat)
    requires forall e :: 0 <= e < n ==> (OfChannel(log, c, e) <==> OfChannel(other, c, e)) && (OfChannel(log, c, e) ==> log[e] == other[e])
    ensures Replay(log, c, owner, n) == Replay(other, c, owner, n)
  {
    if n > 0 {
      ReplaySame(log, other, c, owner, n - 1);
      assert OfChannel(log, c, n - 1) <==> OfChannel(other, c, n - 1);
    }
  }

  predicate OfChannel(log: map<nat, Event>, c: ChannelId, e: nat) { e in log && log[e].channel == c }

  lemma {:induction false} ReplayNothing(log: map<nat, Event>, c: ChannelId, owner: KeyId, n: nat)
    requires forall e :: 0 <= e < n ==> !OfChannel(log, c, e)
    ensures Replay(log, c, owner, n) == {owner}
  {
    if n > 0 {
      ReplayNothing(log, c, owner, n - 1);
      assert !OfChannel(log, c, n - 1);
    }
  }

  /** One recorded event, with the matching change of one channel's members. */
  lemma RecordedAgrees(was: Db, db: Db, e: Event, c: ChannelId)
    requires Inv(was) && c in was.channels && c in db.channels && db.channels[c].owner == was.channels[c].owner
    requires db.events == was.events[was.nextEvent := e] && db.archive == was.archive && db.nextEvent == was.nextEvent + 1
    requires Members(db, c) == if e.channel == c then Effect(Members(was, c), e) else Members(was, c)
    ensures Agrees(db, c)
  {
    var (log, n, owner) := (Log(was), was.nextEvent, was.channels[c].owner);
    assert Log(db)[n] == e;
    assert n !in was.archive;
    forall i | 0 <= i < n ensures (OfChannel(log, c, i) <==> OfChannel(Log(db), c, i)) && (OfChannel(log, c, i) ==> log[i] == Log(db)[i]) { }
    ReplaySame(log, Log(db), c, owner, n);
    assert Agrees(was, c);
  }

  /** The same seats and, for this channel, the same log. */
  lemma UnloggedAgrees(was: Db, db: Db, c: ChannelId)
    requires Inv(was) && c in was.channels && c in db.channels && db.channels[c].owner == was.channels[c].owner
    requires db.nextEvent == was.nextEvent && Members(db, c) == Members(was, c)
    requires forall e :: (OfChannel(Log(was), c, e) <==> OfChannel(Log(db), c, e)) && (OfChannel(Log(was), c, e) ==> Log(was)[e] == Log(db)[e])
    ensures Agrees(db, c)
  {
    ReplaySame(Log(was), Log(db), c, was.channels[c].owner, was.nextEvent);
    assert Agrees(was, c);
  }

  lemma GrantedMembers(db: Db, c: ChannelId, key: KeyId, x: ChannelId)
    ensures Members(Grant(db, c, key), x) == if x == c then Members(db, x) + {key} else Members(db, x)
  {
    var t := Grant(db, c, key);
    forall k ensures k in Members(t, x) <==> k in (if x == c then Members(db, x) + {key} else Members(db, x)) {
      assert k in Members(t, x) <==> Seat(x, k) in t.seats;
      assert k in Members(db, x) <==> Seat(x, k) in db.seats;
    }
  }

  lemma TakenMembers(db: Db, c: ChannelId, key: KeyId, x: ChannelId)
    ensures Members(db.(seats := db.seats - {Seat(c, key)}), x) == if x == c then Members(db, x) - {key} else Members(db, x)
  {
    var t := db.(seats := db.seats - {Seat(c, key)});
    forall k ensures k in Members(t, x) <==> k in (if x == c then Members(db, x) - {key} else Members(db, x)) {
      assert k in Members(t, x) <==> Seat(x, k) in t.seats;
      assert k in Members(db, x) <==> Seat(x, k) in db.seats;
    }
  }

  /** A grant to a channel, recorded as one. */
  lemma GrantKeeps(db: Db, now: Time, c: ChannelId, key: KeyId, kind: Kind, actor: KeyId, i: Option<InvitationId>)
    requires Inv(db) && c in db.channels && (kind == MemberAdded || kind == InvitationResolved)
    ensures Inv(Record(Grant(db, c, key), now, c, kind, actor, Some(key), i))
  {
    var t := Record(Grant(db, c, key), now, c, kind, actor, Some(key), i);
    forall x | x in t.channels ensures Agrees(t, x) {
      GrantedMembers(db, c, key, x);
      RecordedAgrees(db, t, t.events[db.nextEvent], x);
    }
  }

  lemma TakeKeeps(db: Db, now: Time, c: ChannelId, key: KeyId, actor: KeyId)
    requires Inv(db) && c in db.channels
    ensures Inv(Record(db.(seats := db.seats - {Seat(c, key)}), now, c, MemberRemoved, actor, Some(key), None))
  {
    var t := Record(db.(seats := db.seats - {Seat(c, key)}), now, c, MemberRemoved, actor, Some(key), None);
    forall x | x in t.channels ensures Agrees(t, x) {
      TakenMembers(db, c, key, x);
      RecordedAgrees(db, t, t.events[db.nextEvent], x);
    }
  }

  lemma RevokedKeeps(db: Db, now: Time, i: InvitationId, key: KeyId)
    requires Inv(db)
    ensures Inv(Revoked(db, now, i, key).0)
  {
    var t := Revoked(db, now, i, key).0;
    if i in db.invitations && db.invitations[i].revokedAt.None? {
      forall x | x in t.channels ensures Agrees(t, x) {
        RecordedAgrees(db, t, t.events[db.nextEvent], x);
      }
    }
  }

  lemma CreatedKeeps(db: Db, c: ChannelId, key: KeyId, restricted: bool, team: Option<TeamId>)
    requires Inv(db)
    ensures Inv(Created(db, c, key, restricted, team).0)
  {
    var t := Created(db, c, key, restricted, team).0;
    if c !in db.usedChannels {
      forall x | x in t.channels ensures Agrees(t, x) {
        GrantedMembers(db, c, key, x);
        if x == c {
          assert Members(db, c) == {};
          forall e | 0 <= e < t.nextEvent ensures !OfChannel(Log(t), c, e) { }
          ReplayNothing(Log(t), c, key, t.nextEvent);
        } else {
          UnloggedAgrees(db, t, x);
        }
      }
    }
  }

  lemma OtherMembers(db: Db, t: Db, c: ChannelId, x: ChannelId)
    requires x != c && t.seats == OtherSeats(db, c)
    ensures Members(t, x) == Members(db, x)
  {
    forall k ensures k in Members(t, x) <==> k in Members(db, x) {
      assert k in Members(t, x) <==> Seat(x, k) in t.seats;
      assert k in Members(db, x) <==> Seat(x, k) in db.seats;
    }
  }

  lemma OtherLog(db: Db, t: Db, c: ChannelId, x: ChannelId)
    requires x != c && t.events == OtherEvents(db, c) && t.archive == db.archive && forall e :: e in db.archive ==> e !in db.events
    ensures forall e :: (OfChannel(Log(db), x, e) <==> OfChannel(Log(t), x, e)) && (OfChannel(Log(db), x, e) ==> Log(db)[e] == Log(t)[e])
  {
  }

  lemma DroppedKeeps(db: Db, c: ChannelId, key: KeyId, team: Option<TeamId>)
    requires Inv(db)
    ensures Inv(Dropped(db, c, key, team).0)
  {
    var t := Dropped(db, c, key, team).0;
    if OwnerRefusal(db, c, key, team).None? {
      forall x | x in t.channels ensures Agrees(t, x) {
        OtherMembers(db, t, c, x);
        OtherLog(db, t, c, x);
        UnloggedAgrees(db, t, x);
      }
    }
  }

  /** The same seats and the same whole log. */
  lemma SameLogAgrees(was: Db, db: Db)
    requires Inv(was) && db.seats == was.seats && Log(db) == Log(was) && db.nextEvent == was.nextEvent
    requires db.channels.Keys == was.channels.Keys && forall c :: c in db.channels ==> db.channels[c].owner == was.channels[c].owner
    ensures forall c :: c in db.channels ==> Agrees(db, c)
  {
    forall c | c in db.channels ensures Agrees(db, c) { assert Agrees(was, c); }
  }

  lemma CleanedLog(db: Db, now: Time)
    requires forall e :: e in db.archive ==> e !in db.events
    ensures Log(Cleaned(db, now)) == Log(db)
  {
  }

  lemma CleanedKeeps(db: Db, now: Time)
    requires Inv(db)
    ensures Inv(Cleaned(db, now))
  {
    CleanedLog(db, now);
    SameLogAgrees(db, Cleaned(db, now));
  }

  /** Requests that neither seat anyone nor log anything. */
  lemma QuietKeeps(db: Db, channels: map<ChannelId, Channel>, invitations: map<InvitationId, Invitation>, requests: map<RequestId, Request>)
    requires Inv(db) && channels.Keys == db.channels.Keys && forall c :: c in channels ==> channels[c].owner == db.channels[c].owner
    requires forall i :: i in invitations ==> invitations[i].channel in channels
    ensures Inv(db.(channels := channels, invitations := invitations, requests := requests))
  {
    SameLogAgrees(db, db.(channels := channels, invitations := invitations, requests := requests));
  }

  lemma DecideKeeps(db: Db, now: Time, r: RequestId, seen: Request, key: KeyId, approve: bool)
    requires Inv(db)
    ensures Inv(DecideUpdate(db, now, r, seen, key, approve).0)
  {
    if DecideUpdate(db, now, r, seen, key, approve).1.Done? {
      if approve { GrantKeeps(db, now, seen.channel, seen.requester, MemberAdded, key, None); }
      var u := if approve then Record(Grant(db, seen.channel, seen.requester), now, seen.channel, MemberAdded, key, Some(seen.requester), None) else db;
      QuietKeeps(u, u.channels, u.invitations, Ruled(u.requests, r, approve));
    }
  }

  lemma AddedKeeps(db: Db, now: Time, c: ChannelId, member: KeyId, key: KeyId, team: Option<TeamId>)
    requires Inv(db)
    ensures Inv(Added(db, now, c, member, key, team).0)
  {
    if OwnerRefusal(db, c, key, team).None? { GrantKeeps(db, now, c, member, MemberAdded, key, None); }
  }

  lemma RemovedKeeps(db: Db, now: Time, c: ChannelId, member: KeyId, key: KeyId, team: Option<TeamId>)
    requires Inv(db)
    ensures Inv(Removed(db, now, c, member, key, team).0)
  {
    if OwnerRefusal(db, c, key, team).None? { TakeKeeps(db, now, c, member, key); }
  }

  lemma ResolveKeeps(db: Db, now: Time, i: InvitationId, seen: Invitation, key: KeyId)
    requires Inv(db)
    ensures Inv(ResolveUpdate(db, now, i, seen, key).0)
  {
    if seen.channel in db.channels { GrantKeeps(db, now, seen.channel, key, InvitationResolved, key, Some(i)); }
  }

  lemma InviteKeeps(db: Db, now: Time, i: InvitationId, c: ChannelId, key: KeyId)
    requires Inv(db)
    ensures Inv(InviteRow(db, now, i, c, key).0)
  {
    if InviteRow(db, now, i, c, key).1.Done? {
      QuietKeeps(db, db.channels, db.invitations[i := Invitation(c, key, now, now + TTL, None)], db.requests);
    }
  }

  lemma RequestedKeeps(db: Db, r: RequestId, c: ChannelId, key: KeyId, pending: Option<RequestId>)
    requires Inv(db)
    ensures Inv(Requested(db, r, c, key, pending).0)
  {
    QuietKeeps(db, db.channels, db.invitations, db.requests[r := Request(c, key, Undecided)]);
  }

  lemma AccessKeeps(db: Db, c: ChannelId, key: KeyId, team: Option<TeamId>, restricted: bool)
    requires Inv(db)
    ensures Inv(AccessSet(db, c, key, team, restricted).0)
  {
    if c in db.channels {
      QuietKeeps(db, db.channels[c := db.channels[c].(restricted := restricted)], db.invitations, db.requests);
    }
  }

  lemma NextKeeps(db: Db, step: Step)
    requires Inv(db)
    ensures Inv(Next(db, step))
  {
    match step.op
    case CreateChannel(c, key, restricted, team) => CreatedKeeps(db, c, key, restricted, team);
    case SetAccess(c, key, team, restricted) => AccessKeeps(db, c, key, team, restricted);
    case AddMember(c, member, key, team) => AddedKeeps(db, step.now, c, member, key, team);
    case RemoveMember(c, member, key, team) => RemovedKeeps(db, step.now, c, member, key, team);
    case Invite(i, c, key) => InviteKeeps(db, step.now, i, c, key);
    case Resolve(i, seen, key) => ResolveKeeps(db, step.now, i, seen, key);
    case Revoke(i, key) => RevokedKeeps(db, step.now, i, key);
    case Ask(r, c, key) => RequestedKeeps(db, r, c, key, PendingRequest(db, c, key));
    case Decide(r, seen, key, approve) => DecideKeeps(db, step.now, r, seen, key, approve);
    case DropChannel(c, key, team) => DroppedKeeps(db, c, key, team);
    case Cleanup => CleanedKeeps(db, step.now);
    case Pause =>
  }

  lemma {:induction false} Reachable(run: seq<Step>)
    ensures Inv(Exec(run))
  {
    if run != [] {
      Reachable(run[..|run| - 1]);
      NextKeeps(Exec(run[..|run| - 1]), run[|run| - 1]);
    }
  }

  /** Main result: in every reachable state a channel's members are the owner updated by every log entry of the
   *  channel, live or archived, in insertion order. */
  lemma MembersAreReplay(run: seq<Step>, c: ChannelId)
    requires c in Exec(run).channels
    ensures var db := Exec(run);
            forall k :: Seat(c, k) in db.seats <==> k in Replay(db.archive + db.events, c, db.channels[c].owner, db.nextEvent)
  {
    Reachable(run);
    var db := Exec(run);
    assert Agrees(db, c);
    forall k ensures Seat(c, k) in db.seats <==> k in Members(db, c) { }
  }

  // ---------- provenance ----------

  /** The step seats this key in this channel: the owner adds it, or the write of an approval or of a resolved
   *  invitation does. */
  predicate Seats(db: Db, step: Step, c: ChannelId, k: KeyId) {
    && c in db.channels
    && match step.op
       case AddMember(c1, member, key, _) => c1 == c && member == k && key == db.channels[c].owner
       case Decide(_, seen, _, approve) => approve && seen.channel == c && seen.requester == k
       case Resolve(i, seen, key) => seen.channel == c && key == k && CanSeat(db, c, k, i)
       case _ => false
  }

  /** The owner removes this key. */
  predicate Unseats(db: Db, step: Step, c: ChannelId, k: KeyId) {
    c in db.channels && step.op.RemoveMember? && step.op.c == c && step.op.member == k
    && step.op.key == db.channels[c].owner && k != db.channels[c].owner
  }

  lemma OwnerAllowed(db: Db, c: ChannelId, key: KeyId, team: Option<TeamId>)
    ensures OwnerRefusal(db, c, key, team).None? <==> c in db.channels && key == db.channels[c].owner
  {
  }

  /** What one request does to one key's seat. */
  ghost predicate Moves(db: Db, t: Db, step: Step, c: ChannelId, k: KeyId)
    requires c in db.channels && c in t.channels
  {
    && t.channels[c].owner == db.channels[c].owner
    && (Seat(c, k) in t.seats <==> (Seat(c, k) in db.seats && !Unseats(db, step, c, k)) || Seats(db, step, c, k))
  }

  lemma GrantMoves(db: Db, step: Step, c: ChannelId, k: KeyId)
    requires c in db.channels && (step.op.AddMember? || step.op.Resolve?)
    ensures c in Next(db, step).channels && Moves(db, Next(db, step), step, c, k)
  {
    if step.op.AddMember? {
      OwnerAllowed(db, step.op.c, step.op.key, step.op.team);
      assert Next(db, step) == Added(db, step.now, step.op.c, step.op.member, step.op.key, step.op.team).0;
    } else {
      assert Next(db, step) == ResolveUpdate(db, step.now, step.op.i, step.op.seen, step.op.key).0;
    }
  }

  lemma DecideMoves(db: Db, step: Step, c: ChannelId, k: KeyId)
    requires c in db.channels && step.op.Decide?
    ensures c in Next(db, step).channels && Moves(db, Next(db, step), step, c, k)
  {
    var (r, seen, approve) := (step.op.r, step.op.asked, step.op.approve);
    var t := DecideUpdate(db, step.now, r, seen, step.op.key, approve).0;
    assert Next(db, step) == t;
    if seen.channel in db.channels && approve {
      assert t.seats == db.seats + {Seat(seen.channel, seen.requester)};
    } else {
      assert t.seats == db.seats;
    }
  }

  lemma RemoveMoves(db: Db, step: Step, c: ChannelId, k: KeyId)
    requires c in db.channels && step.op.RemoveMember?
    ensures c in Next(db, step).channels && Moves(db, Next(db, step), step, c, k)
  {
    OwnerAllowed(db, step.op.c, step.op.key, step.op.team);
    assert Next(db, step) == Removed(db, step.now, step.op.c, step.op.member, step.op.key, step.op.team).0;
  }

  lemma DropMoves(db: Db, step: Step, c: ChannelId, k: KeyId)
    requires c in db.channels && step.op.DropChannel? && c in Next(db, step).channels
    ensures Moves(db, Next(db, step), step, c, k)
  {
    assert Next(db, step) == Dropped(db, step.op.c, step.op.key, step.op.team).0;
  }

  lemma CreateMoves(db: Db, step: Step, c: ChannelId, k: KeyId)
    requires c in db.channels && step.op.CreateChannel? && db.channels.Keys <= db.usedChannels
    ensures c in Next(db, step).channels && Moves(db, Next(db, step), step, c, k)
  {
    assert Next(db, step) == Created(db, step.op.c, step.op.key, step.op.restricted, step.op.team).0;
  }

  lemma OtherMoves(db: Db, step: Step, c: ChannelId, k: KeyId)
    requires c in db.channels
    requires step.op.SetAccess? || step.op.Invite? || step.op.Revoke? || step.op.Ask? || step.op.Cleanup? || step.op.Pause?
    ensures c in Next(db, step).channels && Moves(db, Next(db, step), step, c, k)
  {
    assert Next(db, step).seats == db.seats;
    assert step.op.SetAccess? || Next(db, step).channels == db.channels;
  }

  lemma NextMoves(db: Db, step: Step, c: ChannelId, k: KeyId)
    requires Inv(db) && c in db.channels && c in Next(db, step).channels
    ensures Moves(db, Next(db, step), step, c, k)
  {
    match step.op
    case CreateChannel(_, _, _, _) => CreateMoves(db, step, c, k);
    case AddMember(_, _, _, _) => GrantMoves(db, step, c, k);
    case Resolve(_, _, _) => GrantMoves(db, step, c, k);
    case RemoveMember(_, _, _, _) => RemoveMoves(db, step, c, k);
    case Decide(_, _, _, _) => DecideMoves(db, step, c, k);
    case DropChannel(_, _, _) => DropMoves(db, step, c, k);
    case _ => OtherMoves(db, step, c, k);
  }

  predicate Seating(op: Op) { op.AddMember? || op.RemoveMember? || op.Resolve? || op.Decide? }

  /** Seating and unseating touch neither channels nor invitations. */
  lemma SeatingFrame(db: Db, step: Step)
    requires Seating(step.op)
    ensures var t := Next(db, step);
            t.channels == db.channels && t.usedChannels == db.usedChannels && t.invitations == db.invitations
  {
    match step.op
    case AddMember(c, member, key, team) => assert Next(db, step) == Added(db, step.now, c, member, key, team).0;
    case RemoveMember(c, member, key, team) => assert Next(db, step) == Removed(db, step.now, c, member, key, team).0;
    case Resolve(i, seen, key) => assert Next(db, step) == ResolveUpdate(db, step.now, i, seen, key).0;
    case Decide(r, seen, key, approve) => assert Next(db, step) == DecideUpdate(db, step.now, r, seen, key, approve).0;
    case _ =>
  }

  /** Only CreateChannel brings a channel. */
  lemma TableFrame(db: Db, step: Step)
    requires !Seating(step.op) && !step.op.CreateChannel?
    ensures var t := Next(db, step);
            t.channels.Keys <= db.channels.Keys && t.usedChannels == db.usedChannels
  {
    match step.op
    case SetAccess(c, key, team, restricted) => assert Next(db, step) == AccessSet(db, c, key, team, restricted).0;
    case Invite(i, c, key) => assert Next(db, step) == InviteRow(db, step.now, i, c, key).0;
    case Revoke(i, key) => assert Next(db, step) == Revoked(db, step.now, i, key).0;
    case DropChannel(c, key, team) => assert Next(db, step) == Dropped(db, c, key, team).0;
    case _ =>
  }

  lemma NewChannel(db: Db, step: Step, c: ChannelId)
    requires Inv(db) && c !in db.channels && c in Next(db, step).channels
    ensures c !in db.usedChannels && forall k :: Seat(c, k) in Next(db, step).seats ==> k == Next(db, step).channels[c].owner
  {
    if step.op.CreateChannel? {
      assert Next(db, step) == Created(db, step.op.c, step.op.key, step.op.restricted, step.op.team).0;
    } else if Seating(step.op) {
      SeatingFrame(db, step);
    } else {
      TableFrame(db, step);
    }
  }

  lemma UsedGrows(db: Db, step: Step)
    ensures db.usedChannels <= Next(db, step).usedChannels
  {
    if step.op.CreateChannel? {
      assert Next(db, step) == Created(db, step.op.c, step.op.key, step.op.restricted, step.op.team).0;
    } else if Seating(step.op) {
      SeatingFrame(db, step);
    } else {
      TableFrame(db, step);
    }
  }

  ghost predicate UnseatedAt(run: seq<Step>, n: nat, c: ChannelId, k: KeyId) {
    n < |run| && Unseats(Exec(run[..n]), run[n], c, k)
  }

  /** The request at j seated the key and no later request of the run unseated it. */
  ghost predicate SeatedBy(run: seq<Step>, j: nat, c: ChannelId, k: KeyId)
    requires j < |run|
  {
    && Seats(Exec(run[..j]), run[j], c, k)
    && forall n :: j < n < |run| ==> !UnseatedAt(run, n, c, k)
  }

  lemma SamePrefix(run: seq<Step>, n: nat)
    requires n < |run| - 1
    ensures var init := run[..|run| - 1]; init[..n] == run[..n] && init[n] == run[n]
  {
  }

  /** SeatedBy one request earlier in the run. */
  lemma SeatedPrefix(run: seq<Step>, j: nat, c: ChannelId, k: KeyId)
    requires j < |run| - 1
    ensures var last := |run| - 1;
            SeatedBy(run, j, c, k) <==> SeatedBy(run[..last], j, c, k) && !Unseats(Exec(run[..last]), run[last], c, k)
  {
    var last := |run| - 1;
    var init := run[..last];
    SamePrefix(run, j);
    forall n | j < n < last ensures UnseatedAt(run, n, c, k) == UnseatedAt(init, n, c, k) { SamePrefix(run, n); }
    assert UnseatedAt(run, last, c, k) == Unseats(Exec(init), run[last], c, k);
  }

  lemma {:induction false} SeatHasOrigin(run: seq<Step>, c: ChannelId, k: KeyId)
    requires c in Exec(run).channels && Seat(c, k) in Exec(run).seats && k != Exec(run).channels[c].owner
    ensures exists j :: 0 <= j < |run| && SeatedBy(run, j, c, k)
  {
    var last := |run| - 1;
    var (init, step) := (run[..last], run[last]);
    var db := Exec(init);
    Reachable(init);
    if c !in db.channels {
      NewChannel(db, step, c);
    } else {
      NextMoves(db, step, c, k);
      if Seats(db, step, c, k) {
        assert SeatedBy(run, last, c, k);
      } else {
        SeatHasOrigin(init, c, k);
        var j :| 0 <= j < last && SeatedBy(init, j, c, k);
        SeatedPrefix(run, j, c, k);
      }
    }
  }

  /** A channel that existed and still exists has existed in between: identifiers are not reused. */
  lemma {:induction false} UsedSince(run: seq<Step>, j: nat, c: ChannelId)
    requires j <= |run| && c in Exec(run[..j]).channels
    ensures c in Exec(run).usedChannels
    decreases |run|
  {
    if j == |run| {
      assert run[..j] == run;
      Reachable(run);
    } else {
      var init := run[..|run| - 1];
      assert init[..j] == run[..j];
      UsedSince(init, j, c);
      UsedGrows(Exec(init), run[|run| - 1]);
    }
  }

  lemma OriginLast(init: seq<Step>, step: Step, c: ChannelId, k: KeyId)
    requires Inv(Exec(init)) && c in Exec(init).channels && c in Next(Exec(init), step).channels
    requires Seats(Exec(init), step, c, k) || (Seat(c, k) in Exec(init).seats && !Unseats(Exec(init), step, c, k))
    ensures Seat(c, k) in Next(Exec(init), step).seats
  {
    NextMoves(Exec(init), step, c, k);
  }

  /** A channel present after j requests and after all of them was present before the last. */
  lemma StillThere(run: seq<Step>, j: nat, c: ChannelId)
    requires j < |run| && c in Exec(run[..j]).channels && c in Exec(run).channels
    ensures var init := run[..|run| - 1];
            Inv(Exec(init)) && c in Exec(init).channels && Next(Exec(init), run[|run| - 1]).channels[c].owner == Exec(init).channels[c].owner
  {
    var (init, step) := (run[..|run| - 1], run[|run| - 1]);
    assert init[..j] == run[..j];
    Reachable(init);
    UsedSince(init, j, c);
    if c !in Exec(init).channels { NewChannel(Exec(init), step, c); }
    NextMoves(Exec(init), step, c, 0);
  }

  lemma {:induction false} OriginSeats(run: seq<Step>, j: nat, c: ChannelId, k: KeyId)
    requires c in Exec(run).channels && k != Exec(run).channels[c].owner && j < |run| && SeatedBy(run, j, c, k)
    ensures Seat(c, k) in Exec(run).seats
    decreases |run|
  {
    var last := |run| - 1;
    StillThere(run, j, c);
    if j < last {
      SeatedPrefix(run, j, c, k);
      OriginSeats(run[..last], j, c, k);
    }
    OriginLast(run[..last], run[last], c, k);
  }

  /** A key other than the owner is a member exactly when some step seated it and the owner has not removed it since. */
  lemma MemberIffSeated(run: seq<Step>, c: ChannelId, k: KeyId)
    requires c in Exec(run).channels && k != Exec(run).channels[c].owner
    ensures Seat(c, k) in Exec(run).seats <==> exists j :: 0 <= j < |run| && SeatedBy(run, j, c, k)
  {
    if Seat(c, k) in Exec(run).seats { SeatHasOrigin(run, c, k); }
    if exists j :: 0 <= j < |run| && SeatedBy(run, j, c, k) {
      var j :| 0 <= j < |run| && SeatedBy(run, j, c, k);
      OriginSeats(run, j, c, k);
    }
  }

  /** The owner is a member for as long as the channel exists. */
  lemma {:induction false} OwnerStays(run: seq<Step>, c: ChannelId)
    requires c in Exec(run).channels
    ensures Seat(c, Exec(run).channels[c].owner) in Exec(run).seats
  {
    var last := |run| - 1;
    var (db, step) := (Exec(run[..last]), run[last]);
    Reachable(run[..last]);
    if c in db.channels {
      OwnerStays(run[..last], c);
      NextMoves(db, step, c, db.channels[c].owner);
    } else {
      assert Next(db, step) == Created(db, step.op.c, step.op.key, step.op.restricted, step.op.team).0;
    }
  }

  /** The step issued this invitation. */
  predicate Issues(db: Db, step: Step, i: InvitationId, invitation: Invitation) {
    && step.op.Invite? && step.op.i == i && step.op.c == invitation.channel && step.op.key == invitation.creator
    && step.now == invitation.createdAt && invitation.expiresAt == step.now + 86_400 * SECOND && invitation.channel in db.channels
  }

  /** The invitation, if it is still there, was there before; at most its revocation is new. */
  predicate Preserved(db: Db, t: Db, i: InvitationId) {
    i in t.invitations ==> i in db.invitations && t.invitations[i].(revokedAt := None) == db.invitations[i].(revokedAt := None)
  }

  lemma InviteIssues(db: Db, step: Step, i: InvitationId)
    requires step.op.Invite? && i in Next(db, step).invitations
    ensures Issues(db, step, i, Next(db, step).invitations[i]) || Preserved(db, Next(db, step), i)
  {
    assert Next(db, step) == InviteRow(db, step.now, step.op.i, step.op.c, step.op.key).0;
  }

  lemma TablePreserves(db: Db, step: Step, i: InvitationId)
    requires !Seating(step.op) && !step.op.Invite?
    ensures Preserved(db, Next(db, step), i)
  {
    match step.op
    case CreateChannel(c, key, restricted, team) => assert Next(db, step) == Created(db, c, key, restricted, team).0;
    case SetAccess(c, key, team, restricted) => assert Next(db, step) == AccessSet(db, c, key, team, restricted).0;
    case Revoke(j, key) => assert Next(db, step) == Revoked(db, step.now, j, key).0;
    case DropChannel(c, key, team) => assert Next(db, step) == Dropped(db, c, key, team).0;
    case Cleanup => assert Next(db, step) == Cleaned(db, step.now);
    case _ =>
  }

  lemma NextInvitation(db: Db, step: Step, i: InvitationId)
    requires i in Next(db, step).invitations
    ensures Issues(db, step, i, Next(db, step).invitations[i]) || Preserved(db, Next(db, step), i)
  {
    if Seating(step.op) {
      SeatingFrame(db, step);
    } else if step.op.Invite? {
      InviteIssues(db, step, i);
    } else {
      TablePreserves(db, step, i);
    }
  }

  /** Every invitation in the table was issued by some step, and is unedited but for its revocation. */
  lemma {:induction false} InvitationIssued(run: seq<Step>, i: InvitationId)
    requires i in Exec(run).invitations
    ensures exists j :: 0 <= j < |run| && Issues(Exec(run[..j]), run[j], i, Exec(run).invitations[i])
  {
    var last := |run| - 1;
    var init := run[..last];
    NextInvitation(Exec(init), run[last], i);
    if Issues(Exec(init), run[last], i, Exec(run).invitations[i]) { return; }
    assert Preserved(Exec(init), Exec(run), i);
    InvitationIssued(init, i);
    var j :| 0 <= j < last && Issues(Exec(init[..j]), init[j], i, Exec(init).invitations[i]);
    assert init[..j] == run[..j];
    assert Issues(Exec(run[..j]), run[j], i, Exec(run).invitations[i]);
  }

  // ---------- the archive ----------

  ghost predicate Monotone(run: seq<Step>) { forall i, j :: 0 <= i <= j < |run| ==> run[i].now <= run[j].now }

  predicate EntryOk(entry: Event, e: nat, n: nat, now: Time) {
    e < n && entry.expiresAt == entry.createdAt + TTL && entry.createdAt <= now
  }

  predicate InOrder(log: map<nat, Event>, d: nat, e: nat)
    requires d in log && e in log
  {
    d < e ==> log[d].createdAt <= log[e].createdAt
  }

  /** Every entry expires a fixed time after it was made, none is from the future, and serials are in time order. */
  ghost predicate Timely(log: map<nat, Event>, n: nat, now: Time) {
    && (forall e :: e in log ==> EntryOk(log[e], e, n, now))
    && (forall d, e :: d in log && e in log ==> InOrder(log, d, e))
  }

  ghost predicate ArchiveFirst(db: Db) {
    && (forall d, e :: d in db.archive && e in db.events ==> d < e)
    && (forall e :: e in db.archive ==> e !in db.events)
  }

  ghost predicate Aged(db: Db, now: Time) { Timely(Log(db), db.nextEvent, now) && ArchiveFirst(db) }

  lemma Part(whole: map<nat, Event>, part: map<nat, Event>, n: nat, now: Time)
    requires Timely(whole, n, now) && forall e :: e in part ==> e in whole && part[e] == whole[e]
    ensures Timely(part, n, now)
  {
    forall d, e | d in part && e in part ensures InOrder(part, d, e) { assert InOrder(whole, d, e); }
  }

  lemma One(log: map<nat, Event>, n: nat, now: Time, at: Time, entry: Event)
    requires Timely(log, n, now) && now <= at && entry.createdAt == at && entry.expiresAt == at + TTL
    ensures Timely(log[n := entry], n + 1, at)
  {
    var t := log[n := entry];
    forall d, e | d in t && e in t ensures InOrder(t, d, e) {
      if d in log && e in log { assert InOrder(log, d, e); }
      if d in log { assert EntryOk(log[d], d, n, now); }
      if e in log { assert EntryOk(log[e], e, n, now); }
    }
  }

  lemma RecordAged(db: Db, t: Db, now: Time, at: Time, entry: Event)
    requires Aged(db, now) && now <= at && entry.createdAt == at && entry.expiresAt == at + TTL
    requires t.events == db.events[db.nextEvent := entry] && t.archive == db.archive && t.nextEvent == db.nextEvent + 1
    ensures Aged(t, at)
  {
    One(Log(db), db.nextEvent, now, at, entry);
    assert Log(t) == Log(db)[db.nextEvent := entry];
    forall d | d in t.archive ensures d < db.nextEvent { assert EntryOk(Log(db)[d], d, db.nextEvent, now); }
  }

  lemma CleanedAged(db: Db, now: Time, at: Time)
    requires Aged(db, now) && now <= at
    ensures Aged(Cleaned(db, at), at)
  {
    var t := Cleaned(db, at);
    CleanedLog(db, at);
    Part(Log(db), Log(t), db.nextEvent, now);
    forall d, e | d in t.archive && e in t.events ensures d < e {
      if d !in db.archive {
        assert EntryOk(Log(db)[d], d, db.nextEvent, now) && EntryOk(Log(db)[e], e, db.nextEvent, now);
        assert InOrder(Log(db), e, d);
      }
    }
  }

  lemma DroppedAged(db: Db, now: Time, c: ChannelId, key: KeyId, team: Option<TeamId>)
    requires Aged(db, now)
    ensures Aged(Dropped(db, c, key, team).0, now)
  {
    Part(Log(db), Log(Dropped(db, c, key, team).0), db.nextEvent, now);
  }

  /** A later clock. */
  lemma StillAged(db: Db, t: Db, now: Time, at: Time)
    requires Aged(db, now) && now <= at && t.events == db.events && t.archive == db.archive && t.nextEvent == db.nextEvent
    ensures Aged(t, at)
  {
    forall e | e in Log(t) ensures EntryOk(Log(t)[e], e, t.nextEvent, at) { assert EntryOk(Log(db)[e], e, db.nextEvent, now); }
    forall d, e | d in Log(t) && e in Log(t) ensures InOrder(Log(t), d, e) { assert InOrder(Log(db), d, e); }
  }

  /** The entry a request appends to the log, if any. */
  ghost predicate Appends(db: Db, t: Db, at: Time) {
    && t.archive == db.archive
    && ((t.events == db.events && t.nextEvent == db.nextEvent)
        || (t.nextEvent == db.nextEvent + 1 && db.nextEvent in t.events
            && t.events == db.events[db.nextEvent := t.events[db.nextEvent]]
            && t.events[db.nextEvent].createdAt == at && t.events[db.nextEvent].expiresAt == at + TTL))
  }

  lemma SeatingAppends(db: Db, step: Step)
    requires Seating(step.op) && !step.op.Decide?
    ensures Appends(db, Next(db, step), step.now)
  {
    match step.op
    case AddMember(c, member, key, team) => assert Next(db, step) == Added(db, step.now, c, member, key, team).0;
    case RemoveMember(c, member, key, team) => assert Next(db, step) == Removed(db, step.now, c, member, key, team).0;
    case Resolve(i, seen, key) => assert Next(db, step) == ResolveUpdate(db, step.now, i, seen, key).0;
    case _ =>
  }

  lemma DecideAppends(db: Db, now: Time, r: RequestId, seen: Request, key: KeyId, approve: bool)
    ensures Appends(db, DecideUpdate(db, now, r, seen, key, approve).0, now)
  {
  }

  lemma RevokeAppends(db: Db, now: Time, i: InvitationId, key: KeyId)
    ensures Appends(db, Revoked(db, now, i, key).0, now)
  {
  }

  lemma TableAppends(db: Db, step: Step)
    requires !Seating(step.op) && !step.op.Cleanup? && !step.op.DropChannel? && !step.op.Revoke?
    ensures Appends(db, Next(db, step), step.now)
  {
    match step.op
    case CreateChannel(c, key, restricted, team) => assert Next(db, step) == Created(db, c, key, restricted, team).0;
    case SetAccess(c, key, team, restricted) => assert Next(db, step) == AccessSet(db, c, key, team, restricted).0;
    case Invite(i, c, key) => assert Next(db, step) == InviteRow(db, step.now, i, c, key).0;
    case _ =>
  }

  lemma NextAged(db: Db, step: Step, now: Time)
    requires Aged(db, now) && now <= step.now
    ensures Aged(Next(db, step), step.now)
  {
    var t := Next(db, step);
    if step.op.Cleanup? {
      CleanedAged(db, now, step.now);
    } else if step.op.DropChannel? {
      DroppedAged(db, now, step.op.c, step.op.key, step.op.team);
      StillAged(t, t, now, step.now);
    } else {
      if step.op.Decide? { DecideAppends(db, step.now, step.op.r, step.op.asked, step.op.key, step.op.approve); }
      else if Seating(step.op) { SeatingAppends(db, step); }
      else if step.op.Revoke? { RevokeAppends(db, step.now, step.op.i, step.op.key); }
      else { TableAppends(db, step); }
      if t.nextEvent == db.nextEvent { StillAged(db, t, now, step.now); }
      else { RecordAged(db, t, now, step.now, t.events[db.nextEvent]); }
    }
  }

  /** Main result: with a clock that never goes back, the archive holds the oldest part of the log: every archived entry
   *  was inserted before every live one, so reading the archive and then the live log reads the log in order. */
  lemma {:induction false} ArchiveIsOlder(run: seq<Step>)
    requires Monotone(run)
    ensures forall d, e :: d in Exec(run).archive && e in Exec(run).events ==> d < e
    ensures run != [] ==> Aged(Exec(run), run[|run| - 1].now)
  {
    if run != [] {
      var init := run[..|run| - 1];
      var step := run[|run| - 1];
      ArchiveIsOlder(init);
      NextAged(Exec(init), step, if init == [] then step.now else init[|init| - 1].now);
    }
  }

  // ---------- access requests ----------

  /** No key waits twice for one channel. */
  ghost predicate OnePending(requests: map<RequestId, Request>) {
    forall a, b :: a in requests && b in requests && requests[a].status == Undecided && requests[a] == requests[b] ==> a == b
  }

  /** The answer to looking up an undecided request. */
  ghost predicate PendingOk(db: Db, c: ChannelId, key: KeyId, pending: Option<RequestId>) {
    match pending
    case Some(r) => r in db.requests && Asked(db, r, c, key)
    case None => forall r :: r in db.requests ==> !Asked(db, r, c, key)
  }

  lemma RequestsFrame(db: Db, step: Step)
    requires !step.op.Ask? && !step.op.Decide?
    ensures Next(db, step).requests == db.requests
  {
    match step.op
    case CreateChannel(c, key, restricted, team) => assert Next(db, step) == Created(db, c, key, restricted, team).0;
    case SetAccess(c, key, team, restricted) => assert Next(db, step) == AccessSet(db, c, key, team, restricted).0;
    case Invite(i, c, key) => assert Next(db, step) == InviteRow(db, step.now, i, c, key).0;
    case Revoke(i, key) => assert Next(db, step) == Revoked(db, step.now, i, key).0;
    case DropChannel(c, key, team) => assert Next(db, step) == Dropped(db, c, key, team).0;
    case AddMember(c, member, key, team) => assert Next(db, step) == Added(db, step.now, c, member, key, team).0;
    case RemoveMember(c, member, key, team) => assert Next(db, step) == Removed(db, step.now, c, member, key, team).0;
    case Resolve(i, seen, key) => assert Next(db, step) == ResolveUpdate(db, step.now, i, seen, key).0;
    case Cleanup => assert Next(db, step) == Cleaned(db, step.now);
    case Pause =>
  }

  lemma AskKeepsOne(db: Db, r: RequestId, c: ChannelId, key: KeyId, pending: Option<RequestId>)
    requires OnePending(db.requests) && PendingOk(db, c, key, pending)
    ensures OnePending(Requested(db, r, c, key, pending).0.requests)
  {
    var t := Requested(db, r, c, key, pending).0;
    if t.requests != db.requests {
      forall x | x in db.requests ensures db.requests[x] != Request(c, key, Undecided) { assert !Asked(db, x, c, key); }
    }
  }

  lemma DecideKeepsOne(requests: map<RequestId, Request>, r: RequestId, approve: bool)
    requires OnePending(requests)
    ensures OnePending(Ruled(requests, r, approve))
  {
  }

  /** The unique index on undecided requests is never violated. */
  lemma {:induction false} NobodyWaitsTwice(run: seq<Step>)
    ensures OnePending(Exec(run).requests)
  {
    if run != [] {
      var (db, step) := (Exec(run[..|run| - 1]), run[|run| - 1]);
      NobodyWaitsTwice(run[..|run| - 1]);
      match step.op
      case Ask(r, c, key) => AskKeepsOne(db, r, c, key, PendingRequest(db, c, key));
      case Decide(r, _, _, approve) => DecideKeepsOne(db.requests, r, approve);
      case _ => RequestsFrame(db, step);
    }
  }
}
