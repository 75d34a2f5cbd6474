/** Membership requests in flight: issuing and resolving an invitation and deciding an access request each read, and
 *  later write, with anything in between. What every seat in every interleaving goes back to. */
module Admission {
  import opened Common
  import opened Membership

  type FlightId = nat

  datatype Inquiry =
    | ToInvite(i: InvitationId, c: ChannelId, key: KeyId, team: Option<TeamId>)
    | ToResolve(i: InvitationId, key: KeyId)
    | ToDecide(r: RequestId, c: ChannelId, key: KeyId, approve: bool)

  /** A request past its read holds the write it is going to make. */
  datatype World = World(db: Db, flights: map<FlightId, Op>)

  datatype Move = Direct(step: Step) | Read(now: Time, f: FlightId, ask: Inquiry) | Write(now: Time, f: FlightId)

  const START := World(EMPTY, map[])

  predicate Plain(op: Op) { !op.Invite? && !op.Resolve? && !op.Decide? }

  /** The checks of a request, on what it reads; None stands for a refusal. */
  function Passed(db: Db, now: Time, ask: Inquiry): Option<Op> {
    match ask
    case ToInvite(i, c, key, team) => if Refusal(db, c, key, team).None? then Some(Invite(i, c, key)) else None
    case ToResolve(i, key) => if ResolveRefusal(db, now, i).None? then Some(Resolve(i, db.invitations[i], key)) else None
    case ToDecide(r, c, key, approve) =>
      if DecideRefusal(db, r, c, key).None? then Some(Decide(r, db.requests[r], key, approve)) else None
  }

  /** What a move does to the tables. */
  function StepOf(w: World, move: Move): Step {
    match move
    case Direct(step) => if Plain(step.op) then step else Step(step.now, Pause)
    case Read(now, _, _) => Step(now, Pause)
    case Write(now, f) => if f in w.flights then Step(now, w.flights[f]) else Step(now, Pause)
  }

  function FlightsAfter(w: World, move: Move): map<FlightId, Op> {
    match move
    case Direct(_) => w.flights
    case Read(now, f, ask) =>
      (match Passed(w.db, now, ask)
       case Some(op) => if f in w.flights then w.flights else w.flights[f := op]
       case None => w.flights)
    case Write(_, f) => w.flights - {f}
  }

  ghost function Advance(w: World, move: Move): World {
    World(Next(w.db, StepOf(w, move)), FlightsAfter(w, move))
  }

  ghost function Fly(run: seq<Move>): World {
    if run == [] then START else Advance(Fly(run[..|run| - 1]), run[|run| - 1])
  }

  /** The table steps of a run, one for each move. */
  ghost function TableRun(run: seq<Move>): (steps: seq<Step>)
    ensures |steps| == |run|
  {
    if run == [] then []
    else TableRun(run[..|run| - 1]) + [StepOf(Fly(run[..|run| - 1]), run[|run| - 1])]
  }

  lemma {:induction false} Projects(run: seq<Move>, j: nat)
    requires j <= |run|
    ensures TableRun(run)[..j] == TableRun(run[..j]) && Fly(run[..j]).db == Membership.Exec(TableRun(run)[..j])
    ensures j < |run| ==> TableRun(run)[j] == StepOf(Fly(run[..j]), run[j])
    decreases |run|, j
  {
    if j == |run| {
      assert run[..j] == run && TableRun(run)[..j] == TableRun(run);
      if run != [] {
        var last := |run| - 1;
        Projects(run[..last], last);
        assert run[..last][..last] == run[..last] && TableRun(run[..last])[..last] == TableRun(run[..last]);
        assert TableRun(run)[..last] == TableRun(run[..last]);
      }
    } else {
      var last := |run| - 1;
      assert TableRun(run)[..last] == TableRun(run[..last]);
      if j < last {
        Projects(run[..last], j);
        assert run[..last][..j] == run[..j] && run[..last][j] == run[j];
        assert TableRun(run)[..j] == TableRun(run[..last])[..j];
      } else {
        Projects(run[..last], last);
        assert run[..last][..last] == run[..last] && TableRun(run[..last])[..last] == TableRun(run[..last]);
      }
    }
  }

  // ---------- where a write comes from ----------

  /** The move read what the write `op` rests on, and passed the checks. */
  ghost predicate Launches(run: seq<Move>, j: nat, op: Op)
    requires j < |run|
  {
    run[j].Read? && Passed(Fly(run[..j]).db, run[j].now, run[j].ask) == Some(op)
  }

  lemma {:induction false} FlightOrigin(run: seq<Move>, f: FlightId)
    requires f in Fly(run).flights
    ensures exists j :: 0 <= j < |run| && Launches(run, j, Fly(run).flights[f])
  {
    var last := |run| - 1;
    var (init, move) := (run[..last], run[last]);
    var op := Fly(run).flights[f];
    if f in Fly(init).flights && Fly(init).flights[f] == op {
      FlightOrigin(init, f);
      var j :| 0 <= j < last && Launches(init, j, op);
      assert init[..j] == run[..j] && init[j] == run[j];
      assert Launches(run, j, op);
    } else {
      assert Launches(run, last, op);
    }
  }

  /** The move seats this key in this channel, with what entitles it: the owner adds it; or the owner, at the read,
   *  approved the key's undecided request; or the key, at the read, resolved an invitation that was active. */
  ghost predicate Admits(run: seq<Move>, j: nat, c: ChannelId, k: KeyId)
    requires j < |run|
  {
    var w := Fly(run[..j]);
    && c in w.db.channels
    && match run[j]
       case Direct(step) => step.op.AddMember? && step.op.c == c && step.op.member == k && step.op.key == w.db.channels[c].owner
       case Read(_, _, _) => false
       case Write(_, f) =>
         && f in w.flights
         && (match w.flights[f]
             case Resolve(i, seen, key) =>
               && seen.channel == c && key == k && CanSeat(w.db, c, k, i)
               && exists p :: 0 <= p < j && ReadsActive(run, p, i, seen, k)
             case Decide(r, asked, key, approve) =>
               && approve && asked.channel == c && asked.requester == k
               && exists p :: 0 <= p < j && ReadsUndecided(run, p, r, c, k, key)
             case _ => false)
  }

  ghost predicate ReadsActive(run: seq<Move>, p: nat, i: InvitationId, seen: Invitation, k: KeyId)
    requires p < |run|
  {
    var db := Fly(run[..p]).db;
    && run[p].Read? && run[p].ask == ToResolve(i, k)
    && i in db.invitations && db.invitations[i] == seen && Active(seen, run[p].now)
  }

  ghost predicate ReadsUndecided(run: seq<Move>, p: nat, r: RequestId, c: ChannelId, k: KeyId, owner: KeyId)
    requires p < |run|
  {
    var db := Fly(run[..p]).db;
    && run[p].Read? && run[p].ask == ToDecide(r, c, owner, true)
    && c in db.channels && db.channels[c].owner == owner && r in db.requests && Asked(db, r, c, k)
  }

  lemma SeatIsAdmission(run: seq<Move>, j: nat, c: ChannelId, k: KeyId)
    requires j < |run|
    ensures Seats(Fly(run[..j]).db, StepOf(Fly(run[..j]), run[j]), c, k) <==> Admits(run, j, c, k)
  {
    var w := Fly(run[..j]);
    if Seats(w.db, StepOf(w, run[j]), c, k) && run[j].Write? {
      FlightOrigin(run[..j], run[j].f);
      var op := w.flights[run[j].f];
      var p :| 0 <= p < j && Launches(run[..j], p, op);
      assert run[..j][..p] == run[..p] && run[..j][p] == run[p];
      match op
      case Resolve(i, seen, key) => assert ReadsActive(run, p, i, seen, k);
      case Decide(r, asked, key, approve) => assert ReadsUndecided(run, p, r, c, k, key);
      case _ =>
    }
  }

  /** The owner removes the key; it cannot remove itself. */
  predicate Expels(w: World, move: Move, c: ChannelId, k: KeyId) {
    && move.Direct? && move.step.op.RemoveMember? && move.step.op.c == c && move.step.op.member == k
    && c in w.db.channels && move.step.op.key == w.db.channels[c].owner && k != w.db.channels[c].owner
  }

  /** Admitted by move j, and not removed by the owner since. */
  ghost predicate AdmittedBy(run: seq<Move>, j: nat, c: ChannelId, k: KeyId)
    requires j < |run|
  {
    && Admits(run, j, c, k)
    && forall n :: j < n < |run| ==> !ExpelledAt(run, n, c, k)
  }

  ghost predicate ExpelledAt(run: seq<Move>, n: nat, c: ChannelId, k: KeyId) {
    n < |run| && Expels(Fly(run[..n]), run[n], c, k)
  }

  lemma ExpelsIff(w: World, move: Move, c: ChannelId, k: KeyId)
    requires move.Write? && move.f in w.flights ==> !w.flights[move.f].RemoveMember?
    ensures Unseats(w.db, StepOf(w, move), c, k) <==> Expels(w, move, c, k)
  {
  }

  lemma ExpulsionIsUnseating(run: seq<Move>, n: nat, c: ChannelId, k: KeyId)
    requires n < |run|
    ensures UnseatedAt(TableRun(run), n, c, k) <==> ExpelledAt(run, n, c, k)
  {
    Projects(run, n);
    var w := Fly(run[..n]);
    if run[n].Write? && run[n].f in w.flights {
      FlightOrigin(run[..n], run[n].f);
      var p :| 0 <= p < n && Launches(run[..n], p, w.flights[run[n].f]);
    }
    ExpelsIff(w, run[n], c, k);
  }

  lemma SeatedIsAdmitted(run: seq<Move>, j: nat, c: ChannelId, k: KeyId)
    requires j < |run|
    ensures SeatedBy(TableRun(run), j, c, k) <==> AdmittedBy(run, j, c, k)
  {
    Projects(run, j);
    SeatIsAdmission(run, j, c, k);
    forall n | j < n < |run| ensures UnseatedAt(TableRun(run), n, c, k) <==> ExpelledAt(run, n, c, k) {
      ExpulsionIsUnseating(run, n, c, k);
    }
  }

  /** Main result, for every interleaving: a key other than the owner is a member exactly when the owner added it, or it
   *  was seated by a write whose read saw its undecided request approved by the owner or its invitation active, and the
   *  owner has not removed it since. */
  lemma MemberIffAdmitted(run: seq<Move>, c: ChannelId, k: KeyId)
    requires c in Fly(run).db.channels && k != Fly(run).db.channels[c].owner
    ensures Seat(c, k) in Fly(run).db.seats <==> exists j :: 0 <= j < |run| && AdmittedBy(run, j, c, k)
  {
    var steps := TableRun(run);
    Projects(run, |run|);
    assert run[..|run|] == run && steps[..|run|] == steps;
    MemberIffSeated(steps, c, k);
    forall j: nat | j < |run| ensures SeatedBy(steps, j, c, k) <==> AdmittedBy(run, j, c, k) { SeatedIsAdmitted(run, j, c, k); }
  }

  // ---------- what else holds in every interleaving ----------

  /** Members are the replay of the log, the owner stays a member and no key waits twice. */
  lemma EveryWorld(run: seq<Move>, c: ChannelId)
    requires c in Fly(run).db.channels
    ensures
      var db := Fly(run).db;
      && (forall k :: Seat(c, k) in db.seats <==> k in Replay(db.archive + db.events, c, db.channels[c].owner, db.nextEvent))
      && Seat(c, db.channels[c].owner) in db.seats
      && OnePending(db.requests)
  {
    var steps := TableRun(run);
    Projects(run, |run|);
    assert run[..|run|] == run && steps[..|run|] == steps;
    MembersAreReplay(steps, c);
    OwnerStays(steps, c);
    NobodyWaitsTwice(steps);
  }

  /** The move wrote the invitation, and the read before it found its creator inside the channel. */
  ghost predicate IssuedBy(run: seq<Move>, j: nat, i: InvitationId, invitation: Invitation)
    requires j < |run|
  {
    && run[j].Write? && run[j].now == invitation.createdAt && invitation.expiresAt == invitation.createdAt + 86_400 * SECOND
    && exists p :: 0 <= p < j && ReadsInside(run, p, i, invitation)
  }

  ghost predicate ReadsInside(run: seq<Move>, p: nat, i: InvitationId, invitation: Invitation)
    requires p < |run|
  {
    var db := Fly(run[..p]).db;
    && run[p].Read? && run[p].ask.ToInvite? && run[p].ask.i == i
    && run[p].ask.c == invitation.channel && run[p].ask.key == invitation.creator
    && invitation.channel in db.channels && CanAccess(db, invitation.channel, invitation.creator, run[p].ask.team)
  }

  lemma IssueGoesBack(run: seq<Move>, j: nat, i: InvitationId, invitation: Invitation)
    requires j < |run| && Issues(Fly(run[..j]).db, StepOf(Fly(run[..j]), run[j]), i, invitation)
    ensures IssuedBy(run, j, i, invitation)
  {
    FlightOrigin(run[..j], run[j].f);
    var p :| 0 <= p < j && Launches(run[..j], p, Fly(run[..j]).flights[run[j].f]);
    assert run[..j][..p] == run[..p] && run[..j][p] == run[p];
    assert ReadsInside(run, p, i, invitation);
  }

  /** Every invitation that can still be resolved goes back to a key that could use the channel when it asked. */
  lemma InvitedByInsider(run: seq<Move>, i: InvitationId)
    requires i in Fly(run).db.invitations
    ensures exists j :: 0 <= j < |run| && IssuedBy(run, j, i, Fly(run).db.invitations[i])
  {
    var (steps, invitation) := (TableRun(run), Fly(run).db.invitations[i]);
    Projects(run, |run|);
    assert run[..|run|] == run && steps[..|run|] == steps;
    InvitationIssued(steps, i);
    var j :| 0 <= j < |steps| && Issues(Membership.Exec(steps[..j]), steps[j], i, invitation);
    Projects(run, j);
    IssueGoesBack(run, j, i, invitation);
  }

  // ---------- nothing in between, and something in between ----------

  /** Resolving and deciding in one go are the whole requests. */
  lemma UninterruptedResolve(w: World, now: Time, f: FlightId, i: InvitationId, key: KeyId)
    requires f !in w.flights
    ensures Advance(Advance(w, Read(now, f, ToResolve(i, key))), Write(now, f)).db == Resolved(w.db, now, i, key).0
  {
  }

  lemma UninterruptedDecide(w: World, now: Time, f: FlightId, r: RequestId, c: ChannelId, key: KeyId, approve: bool)
    requires f !in w.flights
    ensures Advance(Advance(w, Read(now, f, ToDecide(r, c, key, approve))), Write(now, f)).db == Decided(w.db, now, r, c, key, approve).0
  {
  }

  /** A revocation between the read and the write does not stop the seat: the key becomes a member on an invitation that
   *  is no longer active. */
  lemma RevokedStillSeats(w: World, now: Time, f: FlightId, i: InvitationId, key: KeyId, revoker: KeyId)
    requires f !in w.flights && i in w.db.invitations && Active(w.db.invitations[i], now)
    requires w.db.invitations[i].channel in w.db.channels
    ensures
      var read := Advance(w, Read(now, f, ToResolve(i, key)));
      var revoked := Advance(read, Direct(Step(now, Revoke(i, revoker))));
      var end := Advance(revoked, Write(now, f));
      && i in end.db.invitations && !Active(end.db.invitations[i], now)
      && Seat(w.db.invitations[i].channel, key) in end.db.seats
  {
    var read := Advance(w, Read(now, f, ToResolve(i, key)));
    assert read == World(w.db, w.flights[f := Resolve(i, w.db.invitations[i], key)]);
    var revoked := Advance(read, Direct(Step(now, Revoke(i, revoker))));
    assert revoked == World(Revoked(w.db, now, i, revoker).0, read.flights);
    assert Advance(revoked, Write(now, f)).db == ResolveUpdate(revoked.db, now, i, w.db.invitations[i], key).0;
  }
}
