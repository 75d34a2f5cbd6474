/** Exclusive holds, the claim ledger and the lease chain, over every interleaving of the split protocol. */
module Claims {
  import opened Common
  import opened Tables
  import opened Protocol

  // ---------- a message's claim state, replayed from the history alone ----------

  datatype Track = Track(
    holder: Option<Actor>,
    since: Option<Time>,
    token: Option<Token>,
    leaseEnd: Option<Time>,
    acked: bool,
    newest: Option<(Actor, Time)>,
    grants: nat,
    endings: nat,
    times: seq<Time>)

  const UNCLAIMED: Track := Track(None, None, None, None, false, None, 0, 0, [])

  function One(b: bool): nat { if b then 1 else 0 }

  function Cleared(t: Track, ended: bool): Track {
    t.(holder := None, since := None, token := None, leaseEnd := None, endings := t.endings + One(ended))
  }

  /** The effect of one history entry on message `m`. */
  function Advance(t: Track, e: What, m: MessageId): Track {
    match e
    case Granted(x, actor, token, at, leaseEnd, over) =>
      if x != m then t
      else Track(Some(actor), Some(at), token, leaseEnd, t.acked, Some((actor, at)), t.grants + 1, t.endings + One(over.Some?),
                 t.times + [at])
    case Beat(x, _, until) => if x != m then t else t.(leaseEnd := Some(until))
    case Freed(x, _) => if x != m then t else t.(holder := None, since := None, endings := t.endings + 1)
    case SweptRow(x, _, from) => if x != m then t else Cleared(t, from.Some?)
    case Vouched(x, _) => if x != m then t else t.(acked := true)
    case Cleaned(_, cleared, freed, _, _, _) => if m !in cleared then t else Cleared(t, m in freed)
    case _ => t
  }

  ghost function Replay(h: seq<Entry>, m: MessageId): Track {
    if h == [] then UNCLAIMED else Advance(Replay(h[..|h| - 1], m), h[|h| - 1].what, m)
  }

  // ---------- what the state keeps ----------

  function ClaimCount(log: seq<Event>): nat {
    if log == [] then 0 else ClaimCount(log[..|log| - 1]) + One(log[|log| - 1].kind.ClaimEvent?)
  }

  function NewestClaim(log: seq<Event>): Option<(Actor, Time)> {
    if log == [] then None
    else if log[|log| - 1].kind.ClaimEvent? then Some((log[|log| - 1].actor, log[|log| - 1].at))
    else NewestClaim(log[..|log| - 1])
  }

  /** The times of the claim events, in insertion order. */
  function ClaimTimes(log: seq<Event>): seq<Time> {
    if log == [] then []
    else ClaimTimes(log[..|log| - 1]) + if log[|log| - 1].kind.ClaimEvent? then [log[|log| - 1].at] else []
  }

  ghost predicate Balanced(t: Track) {
    && (t.token.None? <==> t.leaseEnd.None?)
    && (t.holder.None? <==> t.since.None?)
    && t.grants - t.endings == One(t.holder.Some?)
    && (t.holder.Some? ==> t.since.Some? && t.newest == Some((t.holder.value, t.since.value)))
  }

  ghost predicate LogAgrees(log: seq<Event>, t: Track) {
    Acked(log) == t.acked && ClaimCount(log) == t.grants && NewestClaim(log) == t.newest && ClaimTimes(log) == t.times
  }

  /** The row carries exactly what the history says. */
  ghost predicate Agrees(row: Message, t: Track) {
    && row.holder == t.holder && row.claimedAt == t.since
    && row.token == t.token && row.leaseEnd == t.leaseEnd
    && (row.holder.Some? ==> row.claimedKey.Some?)
    && LogAgrees(row.log, t)
    && Balanced(t)
  }

  /** What the entry promises about message `m`, whose state just before was `t`. */
  ghost predicate Legal(t: Track, e: Entry, m: MessageId) {
    match e.what
    case Granted(x, _, token, at, leaseEnd, over) =>
      x == m ==>
        && (t.holder.None? || (t.leaseEnd.Some? && t.leaseEnd.value <= at))
        && over == t.holder && at <= e.wall
        && (token.None? <==> leaseEnd.None?)
        && (leaseEnd.Some? ==> at < leaseEnd.value)
    case Beat(x, token, until) =>
      x == m ==> t.token == Some(token) && t.leaseEnd.Some? && e.wall < t.leaseEnd.value && e.wall < until
    case Freed(x, actor) => x == m ==> t.holder == Some(actor)
    case SweptRow(x, cutoff, from) =>
      x == m ==> from == t.holder && t.leaseEnd.Some? && t.leaseEnd.value <= cutoff <= e.wall
    case Cleaned(cutoff, cleared, freed, _, _, _) =>
      && (m in freed <==> m in cleared && t.holder.Some?)
      && (m in cleared ==> !t.acked && t.leaseEnd.Some? && t.leaseEnd.value <= cutoff <= e.wall)
    case _ => true
  }

  ghost predicate LegalAt(h: seq<Entry>, j: nat, m: MessageId)
    requires j < |h|
  {
    Legal(Replay(h[..j], m), h[j], m)
  }

  ghost predicate LegalHistory(h: seq<Entry>) {
    && (forall j: nat, m: MessageId :: j < |h| ==> LegalAt(h, j, m))
    && (forall i, j :: 0 <= i < j < |h| ==> h[i].wall <= h[j].wall)
  }

  predicate Issues(e: Entry) { e.what.Granted? && e.what.token.Some? }

  /** Lease tokens are issued in increasing order, so each is issued once. */
  ghost predicate TokensFresh(h: seq<Entry>, next: Token) {
    && (forall j :: 0 <= j < |h| && Issues(h[j]) ==> h[j].what.token.value < next)
    && (forall i, j :: 0 <= i < j < |h| && Issues(h[i]) && Issues(h[j]) ==> h[i].what.token.value < h[j].what.token.value)
  }

  ghost predicate RequestOk(q: Request, now: Time) {
    match q
    case AtChannel(req, _) => req.lease.Some? ==> LeaseSecondsOk(req.lease.value)
    case AtDecision(req, _) => req.lease.Some? ==> LeaseSecondsOk(req.lease.value)
    case AtUpdate(req, _, at) => at <= now && (req.lease.Some? ==> LeaseSecondsOk(req.lease.value))
    case Sweeping(cutoff, _, _) => cutoff <= now
    case Cleaning(cutoff, _, _) => cutoff <= now
    case _ => true
  }

  /** The row of `m`, if there is one, is in state `t`; an identifier not yet used is untouched. */
  ghost predicate RowOk(db: Db, t: Track, m: MessageId) {
    && (m in db.messages ==> m < db.nextMessage && Agrees(db.messages[m], t))
    && (m >= db.nextMessage ==> t == UNCLAIMED)
  }

  ghost predicate RowsAgree(db: Db, h: seq<Entry>) {
    forall m: MessageId :: RowOk(db, Replay(h, m), m)
  }

  ghost predicate TokensBelow(db: Db) {
    && TokensDistinct(db.messages)
    && (forall m :: m in db.messages && db.messages[m].token.Some? ==> db.messages[m].token.value < db.nextToken)
  }


  ghost predicate Inv(w: World) {
    && RowsAgree(w.db, w.history)
    && TokensBelow(w.db)
    && (forall r :: r in w.requests ==> RequestOk(w.requests[r], w.db.now))
    && LegalHistory(w.history)
    && (forall j :: 0 <= j < |w.history| ==> w.history[j].wall <= w.db.now)
    && TokensFresh(w.history, w.db.nextToken)
  }

  // ---------- one step keeps it ----------

  lemma ReplaySnoc(h: seq<Entry>, e: Entry, m: MessageId)
    ensures Replay(h + [e], m) == Advance(Replay(h, m), e.what, m)
  {
    assert (h + [e])[..|h + [e]| - 1] == h;
  }

  lemma LogSnoc(log: seq<Event>, e: Event)
    ensures ClaimCount(log + [e]) == ClaimCount(log) + One(e.kind.ClaimEvent?)
    ensures NewestClaim(log + [e]) == if e.kind.ClaimEvent? then Some((e.actor, e.at)) else NewestClaim(log)
    ensures Acked(log + [e]) <==> Acked(log) || e.kind.AckEvent?
    ensures ClaimTimes(log + [e]) == ClaimTimes(log) + if e.kind.ClaimEvent? then [e.at] else []
  {
    assert (log + [e])[..|log + [e]| - 1] == log;
  }

  /** Appending a legal entry to a legal history. */
  lemma LegalSnoc(h: seq<Entry>, e: Entry)
    requires LegalHistory(h)
    requires forall j :: 0 <= j < |h| ==> h[j].wall <= e.wall
    requires forall m :: Legal(Replay(h, m), e, m)
    ensures LegalHistory(h + [e])
  {
    forall j: nat, m: MessageId | j < |h + [e]|
      ensures LegalAt(h + [e], j, m)
    {
      if j < |h| {
        assert (h + [e])[..j] == h[..j];
        assert LegalAt(h, j, m);
      } else {
        assert (h + [e])[..j] == h;
      }
    }
  }

  /** `what`, logged at `was`, is legal for `m` and leads to the row's state in `db`. */
  ghost predicate Moves(was: Db, db: Db, what: What, m: MessageId, t: Track) {
    RowOk(db, Advance(t, what, m), m) && Legal(t, Entry(was.now, what), m)
  }

  lemma LogKeeps(w: World, db: Db, what: What)
    requires Inv(w) && TokensBelow(db)
    requires forall m: MessageId :: Moves(w.db, db, what, m, Replay(w.history, m))
    requires db.now == w.db.now && db.nextToken >= w.db.nextToken
    requires what.Granted? && what.token.Some? ==> w.db.nextToken <= what.token.value < db.nextToken
    ensures Inv(Logged(w, db, what))
  {
    var e := Entry(w.db.now, what);
    forall m: MessageId
      ensures RowOk(db, Replay(w.history + [e], m), m) && Legal(Replay(w.history, m), e, m)
    {
      assert Moves(w.db, db, what, m, Replay(w.history, m));
      ReplaySnoc(w.history, e, m);
    }
    LegalSnoc(w.history, e);
  }

  lemma GrantAgrees(db: Db, req: ClaimRequest, prev: Option<Actor>, at: Time, t: Track)
    requires req.m in db.messages && Agrees(db.messages[req.m], t)
    ensures Agrees(GrantRow(db, req, prev, at), Advance(t, Grant(db, req, at), req.m))
  {
    LogSnoc(db.messages[req.m].log, Event(ClaimEvent, req.actor, at, ClaimNote(req.actor, prev)));
  }

  lemma ClaimMoves(db: Db, req: ClaimRequest, prev: Option<Actor>, at: Time, m: MessageId, t: Track)
    requires RowOk(db, t, m) && at <= db.now && (req.lease.Some? ==> LeaseSecondsOk(req.lease.value))
    requires req.m in db.messages && Open(db.messages[req.m], at)
    ensures Moves(db, ClaimUpdate(db, req, prev, at).0, Grant(db, req, at), m, t)
  {
    if m == req.m { GrantAgrees(db, req, prev, at, t); }
  }

  lemma PulseMoves(db: Db, token: Token, seconds: int, m: MessageId, t: Track)
    requires RowOk(db, t, m) && TokensDistinct(db.messages) && Heartbeat(db, token, seconds).1.Extended?
    ensures
      var (after, reply) := Heartbeat(db, token, seconds);
      Moves(db, after, Beat(TokenRow(db.messages, token).value, token, reply.leaseEnd), m, t)
  {
  }

  lemma ReleaseMoves(db: Db, x: MessageId, actor: Actor, allowed: bool, m: MessageId, t: Track)
    requires RowOk(db, t, m) && Release(db, x, actor, allowed).1.Released?
    ensures Moves(db, Release(db, x, actor, allowed).0, Freed(x, actor), m, t)
  {
  }

  lemma AckMoves(db: Db, x: MessageId, actor: Actor, allowed: bool, m: MessageId, t: Track)
    requires RowOk(db, t, m) && Ack(db, x, actor, allowed).1 == Acknowledged(true)
    ensures Moves(db, Ack(db, x, actor, allowed).0, Vouched(x, actor), m, t)
  {
    LogSnoc(db.messages[x].log, Event(AckEvent, actor, db.now, None));
  }

  lemma SweepMoves(db: Db, x: MessageId, cutoff: Time, m: MessageId, t: Track)
    requires RowOk(db, t, m) && cutoff <= db.now && SweepHits(db.messages, x, cutoff)
    ensures Moves(db, SweepRow(db, x, cutoff), SweptRow(x, cutoff, db.messages[x].holder), m, t)
  {
  }

  lemma PostMoves(db: Db, post: PostRequest, m: MessageId, t: Track)
    requires RowOk(db, t, m) && Post(db, post).1.Posted?
    ensures Moves(db, Post(db, post).0, Posting(db, post), m, t)
  {
  }

  lemma CleanupMoves(db: Db, cutoff: Time, order: seq<MessageId>, seen: MessageTable, m: MessageId, t: Track)
    requires RowOk(db, t, m) && cutoff <= db.now
    ensures Moves(db, CleanupUpdate(db, cutoff, order, seen), Summary(db, cutoff, order, seen), m, t)
  {
  }

  lemma ClaimTokens(db: Db, req: ClaimRequest, prev: Option<Actor>, at: Time)
    requires TokensBelow(db)
    ensures TokensBelow(ClaimUpdate(db, req, prev, at).0)
  {
  }

  lemma WriteKeeps(w: World, r: RequestId, req: ClaimRequest, prev: Option<Actor>, at: Time)
    requires Inv(w) && r in w.requests && w.requests[r] == AtUpdate(req, prev, at)
    ensures Inv(WriteClaim(w, r, req, prev, at))
  {
    if req.m in w.db.messages && Open(w.db.messages[req.m], at) {
      forall m { ClaimMoves(w.db, req, prev, at, m, Replay(w.history, m)); }
      ClaimTokens(w.db, req, prev, at);
      LogKeeps(w, ClaimUpdate(w.db, req, prev, at).0, Grant(w.db, req, at));
    }
  }

  lemma PulseKeeps(w: World, token: Token, seconds: int)
    requires Inv(w)
    ensures Inv(DoPulse(w, token, seconds))
  {
    var (db, reply) := Heartbeat(w.db, token, seconds);
    if reply.Extended? {
      forall m { PulseMoves(w.db, token, seconds, m, Replay(w.history, m)); }
      LogKeeps(w, db, Beat(TokenRow(w.db.messages, token).value, token, reply.leaseEnd));
    }
  }

  lemma ReleaseKeeps(w: World, x: MessageId, actor: Actor, allowed: bool)
    requires Inv(w)
    ensures Inv(DoRelease(w, x, actor, allowed))
  {
    var (db, reply) := Release(w.db, x, actor, allowed);
    if reply.Released? {
      forall m { ReleaseMoves(w.db, x, actor, allowed, m, Replay(w.history, m)); }
      LogKeeps(w, db, Freed(x, actor));
    }
  }

  lemma AckKeeps(w: World, x: MessageId, actor: Actor, allowed: bool)
    requires Inv(w)
    ensures Inv(DoAck(w, x, actor, allowed))
  {
    var (db, reply) := Ack(w.db, x, actor, allowed);
    if reply == Acknowledged(true) {
      forall m { AckMoves(w.db, x, actor, allowed, m, Replay(w.history, m)); }
      LogKeeps(w, db, Vouched(x, actor));
    }
  }

  lemma SweepKeeps(w: World, r: RequestId, cutoff: Time, todo: seq<MessageId>, count: nat)
    requires Inv(w) && cutoff <= w.db.now
    ensures Inv(SweepStep(w, r, cutoff, todo, count))
  {
    if todo != [] && SweepHits(w.db.messages, todo[0], cutoff) {
      forall m { SweepMoves(w.db, todo[0], cutoff, m, Replay(w.history, m)); }
      LogKeeps(w, SweepRow(w.db, todo[0], cutoff), SweptRow(todo[0], cutoff, w.db.messages[todo[0]].holder));
    }
  }

  lemma PostKeeps(w: World, post: PostRequest)
    requires Inv(w)
    ensures Inv(DoPost(w, post))
  {
    if Post(w.db, post).1.Posted? {
      forall m { PostMoves(w.db, post, m, Replay(w.history, m)); }
      LogKeeps(w, Post(w.db, post).0, Posting(w.db, post));
    }
  }

  lemma CleanupKeeps(w: World, r: RequestId, cutoff: Time, order: seq<MessageId>, seen: MessageTable, fault: bool)
    requires Inv(w) && cutoff <= w.db.now
    ensures Inv(WriteClean(w, r, cutoff, order, seen, fault))
  {
    forall m { CleanupMoves(w.db, cutoff, order, seen, m, Replay(w.history, m)); }
    LogKeeps(w, CleanupUpdate(w.db, cutoff, order, seen), Summary(w.db, cutoff, order, seen));
  }

  lemma RetractKeeps(w: World, r: RequestId, m: MessageId, seen: Message)
    requires Inv(w)
    ensures Inv(WriteRetract(w, r, m, seen))
  {
    RemovalKeeps(w, RetractUpdate(w.db, m, seen), {m}, Retraction(w.db, m, seen));
  }

  /** Removing rows, for whatever reason that is no claim event, moves no other row. */
  lemma RemovalKeeps(w: World, db: Db, gone: set<MessageId>, what: What)
    requires Inv(w) && (what.Withdrawn? || what.Dropped?)
    requires db.messages == Without(w.db.messages, gone)
    requires db.now == w.db.now && db.nextMessage == w.db.nextMessage && db.nextToken == w.db.nextToken
    ensures Inv(Logged(w, db, what))
  {
    forall m: MessageId ensures Moves(w.db, db, what, m, Replay(w.history, m)) {
      assert RowOk(w.db, Replay(w.history, m), m);
    }
    LogKeeps(w, db, what);
  }

  lemma AnswerKeeps(w: World, r: RequestId, q: Request)
    requires Inv(w) && RequestOk(q, w.db.now)
    ensures Inv(Answered(w, r, q))
  {
  }

  lemma RequestKeeps(w: World, l: Label)
    requires Inv(w) && !l.Do? && !l.ClaimWrite? && !l.SweepNext? && !Removing(l)
    ensures Inv(Next(w, l))
  {
    var next := Next(w, l);
    if next != w {
      assert next == Answered(w, l.r, next.requests[l.r]);
      AnswerKeeps(w, l.r, next.requests[l.r]);
    }
  }

  lemma PerformKeeps(w: World, op: Op)
    requires Inv(w)
    ensures Inv(Perform(w, op))
  {
    match op
    case Tick(_) =>
    case CreateChannel(_) =>
    case UpdateChannel(_, _) =>
    case Pulse(token, seconds) => PulseKeeps(w, token, seconds);
    case GiveBack(m, actor, allowed) => ReleaseKeeps(w, m, actor, allowed);
    case Acknowledge(m, actor, allowed) => AckKeeps(w, m, actor, allowed);
    case PostMessage(post) => PostKeeps(w, post);
    case RemoveChannel(c, owner) =>
      var (db, reply) := DeleteChannel(w.db, c, owner);
      var ms := InChannel(w.db.messages, c);
      if reply.ChannelDeleted? { RemovalKeeps(w, db, ms, Dropped(ms)); }
  }

  lemma NextKeeps(w: World, l: Label)
    requires Inv(w)
    ensures Inv(Next(w, l))
  {
    match l
    case Do(op) => PerformKeeps(w, op);
    case ClaimWrite(r) =>
      if r in w.requests && w.requests[r].AtUpdate? {
        WriteKeeps(w, r, w.requests[r].req, w.requests[r].prev, w.requests[r].at);
      }
    case SweepNext(r) =>
      if r in w.requests && w.requests[r].Sweeping? {
        SweepKeeps(w, r, w.requests[r].cutoff, w.requests[r].todo, w.requests[r].count);
      }
    case RetractWrite(r) =>
      if r in w.requests && w.requests[r].AtRetractWrite? { RetractKeeps(w, r, w.requests[r].m, w.requests[r].seen); }
    case CleanWrite(r, fault) =>
      if r in w.requests && w.requests[r].Cleaning? {
        CleanupKeeps(w, r, w.requests[r].cutoff, w.requests[r].order, w.requests[r].rows, fault);
      }
    case _ => RequestKeeps(w, l);
  }

  /** The invariant holds at every reachable world, whatever the interleaving. */
  lemma {:induction false} Reachable(run: seq<Label>)
    ensures Inv(Exec(START, run))
  {
    if run != [] {
      Reachable(run[..|run| - 1]);
      NextKeeps(Exec(START, run[..|run| - 1]), run[|run| - 1]);
    }
  }

  // ---------- exclusive hold ----------

  ghost predicate IsGrant(h: seq<Entry>, i: int, m: MessageId) {
    0 <= i < |h| && h[i].what.Granted? && h[i].what.m == m
  }

  /** The end of the lease granted at `i` as it stands just before entry `k`. */
  ghost function LeaseEndAt(h: seq<Entry>, i: int, k: int): Option<Time>
    requires 0 <= i < k <= |h| && h[i].what.Granted?
    decreases k
  {
    if k == i + 1 then h[i].what.leaseEnd
    else if h[k - 1].what.Beat? && h[k - 1].what.m == h[i].what.m then Some(h[k - 1].what.until)
    else LeaseEndAt(h, i, k - 1)
  }

  ghost predicate ExpiredAt(h: seq<Entry>, i: int, k: int, t: Time)
    requires 0 <= i < k <= |h| && h[i].what.Granted?
  {
    LeaseEndAt(h, i, k).Some? && LeaseEndAt(h, i, k).value <= t
  }

  /** Entry `k` ends the hold granted at `i`: its holder's release, or a recovery of its expired lease. */
  ghost predicate EndsHold(h: seq<Entry>, i: int, k: int)
    requires 0 <= i < k < |h| && h[i].what.Granted?
  {
    var (m, actor) := (h[i].what.m, h[i].what.actor);
    match h[k].what
    case Freed(x, who) => x == m && who == actor
    case SweptRow(x, cutoff, from) => x == m && from == Some(actor) && ExpiredAt(h, i, k, cutoff) && cutoff <= h[k].wall
    case Cleaned(cutoff, _, freed, _, _, _) => m in freed && ExpiredAt(h, i, k, cutoff) && cutoff <= h[k].wall
    case Granted(x, _, _, at, _, over) => x == m && over == Some(actor) && ExpiredAt(h, i, k, at) && at <= h[k].wall
    case _ => false
  }

  /** Until something ends it, the hold granted at `i` is what the row shows. */
  lemma {:induction false} HoldLasts(h: seq<Entry>, i: int, k: int, m: MessageId)
    requires LegalHistory(h) && IsGrant(h, i, m) && i < k <= |h|
    requires forall j :: i < j < k ==> !EndsHold(h, i, j)
    ensures
      var t := Replay(h[..k], m);
      t.holder == Some(h[i].what.actor) && t.since == Some(h[i].what.at)
      && t.token == h[i].what.token && t.leaseEnd == LeaseEndAt(h, i, k)
    decreases k
  {
    assert h[..k][..k - 1] == h[..k - 1];
    assert LegalAt(h, k - 1, m);
    if k > i + 1 {
      HoldLasts(h, i, k - 1, m);
      assert !EndsHold(h, i, k - 1);
    }
  }

  /** Two claims of one message never hold it together: whatever the interleaving, the earlier
   *  hold was ended after it began and no later than the instant the other began. */
  lemma ExclusiveHold(run: seq<Label>, m: MessageId, i: int, j: int)
    requires var h := Exec(START, run).history; i < j && IsGrant(h, i, m) && IsGrant(h, j, m)
    ensures var h := Exec(START, run).history; exists k :: i < k <= j && EndsHold(h, i, k)
  {
    var h := Exec(START, run).history;
    Reachable(run);
    if forall k :: i < k < j ==> !EndsHold(h, i, k) {
      HoldLasts(h, i, j, m);
      assert LegalAt(h, j, m);
      assert EndsHold(h, i, j);
    }
  }

  /** The lease of a claim without a lease never appears, so nothing can expire it. */
  lemma {:induction false} NoLeaseAppears(h: seq<Entry>, i: int, k: int, m: MessageId)
    requires LegalHistory(h) && IsGrant(h, i, m) && i < k <= |h| && h[i].what.leaseEnd.None?
    requires forall j :: i < j < k ==> h[j].what != Freed(m, h[i].what.actor)
    ensures LeaseEndAt(h, i, k).None? && forall j :: i < j < k ==> !EndsHold(h, i, j)
    decreases k
  {
    assert LegalAt(h, i, m);
    if k > i + 1 {
      NoLeaseAppears(h, i, k - 1, m);
      HoldLasts(h, i, k - 1, m);
      assert LegalAt(h, k - 1, m);
    }
  }

  /** A plain claim ends only by its holder's release or by removal of the row. */
  lemma PlainClaimStays(run: seq<Label>, m: MessageId, i: int)
    requires
      var h := Exec(START, run).history;
      && IsGrant(h, i, m) && h[i].what.leaseEnd.None?
      && (forall j :: i < j < |h| ==> h[j].what != Freed(m, h[i].what.actor))
    ensures
      var w := Exec(START, run);
      m in w.db.messages ==>
        w.db.messages[m].holder == Some(w.history[i].what.actor) && w.db.messages[m].claimedAt == Some(w.history[i].what.at)
  {
    var w := Exec(START, run);
    Reachable(run);
    NoLeaseAppears(w.history, i, |w.history|, m);
    HoldLasts(w.history, i, |w.history|, m);
    assert w.history[..|w.history|] == w.history;
    assert RowOk(w.db, Replay(w.history, m), m);
  }

  // ---------- the claim ledger ----------

  function EndingsIn(e: What, m: MessageId): nat {
    match e
    case Granted(x, _, _, _, _, over) => One(x == m && over.Some?)
    case Freed(x, _) => One(x == m)
    case SweptRow(x, _, from) => One(x == m && from.Some?)
    case Cleaned(_, cleared, freed, _, _, _) => One(m in cleared && m in freed)
    case _ => 0
  }

  /** Releases, sweeps, cleanup lease releases and takeovers of `m`. */
  ghost function Endings(h: seq<Entry>, m: MessageId): nat {
    if h == [] then 0 else Endings(h[..|h| - 1], m) + EndingsIn(h[|h| - 1].what, m)
  }

  lemma {:induction false} EndingsCounted(h: seq<Entry>, m: MessageId)
    ensures Replay(h, m).endings == Endings(h, m)
  {
    if h != [] { EndingsCounted(h[..|h| - 1], m); }
  }

  /** Claim events minus endings is 1 while a live message is claimed and 0 otherwise, and the newest
   *  claim event names the present holder and the time it claimed. */
  lemma Ledger(run: seq<Label>, m: MessageId)
    requires m in Exec(START, run).db.messages
    ensures
      var w := Exec(START, run);
      var row := w.db.messages[m];
      && ClaimCount(row.log) - Endings(w.history, m) == (if row.holder.Some? then 1 else 0)
      && (row.holder.Some? ==> row.claimedAt.Some? && row.claimedKey.Some?
                               && NewestClaim(row.log) == Some((row.holder.value, row.claimedAt.value)))
      && (row.token.None? <==> row.leaseEnd.None?) && (row.holder.None? <==> row.claimedAt.None?)
  {
    var w := Exec(START, run);
    Reachable(run);
    assert RowOk(w.db, Replay(w.history, m), m);
    EndingsCounted(w.history, m);
  }

  // ---------- the lease chain ----------

  /** The entry takes message `m` away from whatever lease token it had. */
  ghost predicate Supersedes(e: What, m: MessageId) {
    match e
    case Granted(x, _, _, _, _, _) => x == m
    case SweptRow(x, _, _) => x == m
    case Cleaned(_, cleared, _, _, _, _) => m in cleared
    case _ => false
  }

  /** The token of a row is that of its latest claim, and its lease end is that claim's, as extended. */
  lemma {:induction false} TokenOrigin(h: seq<Entry>, k: int, m: MessageId) returns (i: int)
    requires LegalHistory(h) && 0 <= k <= |h| && Replay(h[..k], m).token.Some?
    ensures IsGrant(h, i, m) && i < k && h[i].what.token == Replay(h[..k], m).token
    ensures forall j :: i < j < k ==> !Supersedes(h[j].what, m)
    ensures LeaseEndAt(h, i, k) == Replay(h[..k], m).leaseEnd
    decreases k
  {
    assert k > 0;
    assert h[..k][..k - 1] == h[..k - 1];
    assert LegalAt(h, k - 1, m);
    if IsGrant(h, k - 1, m) {
      i := k - 1;
    } else {
      i := TokenOrigin(h, k - 1, m);
    }
  }

  /** From the grant to an accepted heartbeat the lease in force was never expired. */
  lemma {:induction false} NeverLapsed(h: seq<Entry>, i: int, k: int, j: int, m: MessageId)
    requires LegalHistory(h) && IsGrant(h, i, m) && i < k <= j < |h|
    requires forall p :: i < p < j ==> !Supersedes(h[p].what, m)
    requires forall p :: i < p <= j ==> Replay(h[..p], m).leaseEnd == LeaseEndAt(h, i, p)
    requires h[j].what.Beat? && h[j].what.m == m
    ensures LeaseEndAt(h, i, k).Some? && h[k].wall < LeaseEndAt(h, i, k).value
    decreases j - k
  {
    assert LegalAt(h, k, m);
    if k < j { NeverLapsed(h, i, k + 1, j, m); }
  }

  lemma {:induction false} LeaseEndReplayed(h: seq<Entry>, i: int, k: int, m: MessageId)
    requires LegalHistory(h) && IsGrant(h, i, m) && i < k <= |h|
    requires forall p :: i < p < k ==> !Supersedes(h[p].what, m)
    ensures Replay(h[..k], m).leaseEnd == LeaseEndAt(h, i, k)
    decreases k
  {
    assert h[..k][..k - 1] == h[..k - 1];
    if k > i + 1 { LeaseEndReplayed(h, i, k - 1, m); }
  }

  /** An accepted heartbeat carries the token of the latest claim of its message, with no claim,
   *  sweep or cleanup of it since, and the lease was unexpired at every moment in between: entry
   *  `k` and the time since entry `k - 1` come before the lease end then in force. */
  lemma LeaseChain(run: seq<Label>, j: int) returns (i: int)
    requires var h := Exec(START, run).history; 0 <= j < |h| && h[j].what.Beat?
    ensures
      var h := Exec(START, run).history;
      && IsGrant(h, i, h[j].what.m) && i < j && h[i].what.token == Some(h[j].what.lease)
      && (forall k :: i < k < j ==> !Supersedes(h[k].what, h[j].what.m))
      && (forall k :: i < k <= j ==> LeaseEndAt(h, i, k).Some? && h[k].wall < LeaseEndAt(h, i, k).value)
  {
    var h := Exec(START, run).history;
    Reachable(run);
    var m := h[j].what.m;
    assert LegalAt(h, j, m);
    i := TokenOrigin(h, j, m);
    forall p | i < p <= j ensures Replay(h[..p], m).leaseEnd == LeaseEndAt(h, i, p) {
      LeaseEndReplayed(h, i, p, m);
    }
    forall k | i < k <= j ensures LeaseEndAt(h, i, k).Some? && h[k].wall < LeaseEndAt(h, i, k).value {
      NeverLapsed(h, i, k, j, m);
    }
  }

  lemma IssuedOnce(h: seq<Entry>, next: Token, i: int, j: int)
    requires TokensFresh(h, next) && 0 <= i < |h| && 0 <= j < |h| && Issues(h[i]) && Issues(h[j])
    requires h[i].what.token == h[j].what.token
    ensures i == j
  {
  }

  /** Once superseded, swept, cleaned up or expired, a lease token is never accepted again. */
  lemma TokenDead(run: seq<Label>, i: int, p: int, j: int)
    requires
      var h := Exec(START, run).history;
      && 0 <= i < p <= j < |h| && Issues(h[i])
      && ((p < j && Supersedes(h[p].what, h[i].what.m)) || ExpiredAt(h, i, p, h[p].wall))
    ensures
      var h := Exec(START, run).history;
      !(h[j].what.Beat? && Some(h[j].what.lease) == h[i].what.token)
  {
    var w := Exec(START, run);
    if w.history[j].what.Beat? && Some(w.history[j].what.lease) == w.history[i].what.token {
      var i' := LeaseChain(run, j);
      assert TokensFresh(w.history, w.db.nextToken) by { Reachable(run); }
      IssuedOnce(w.history, w.db.nextToken, i, i');
    }
  }

  // ---------- one request, nothing in between ----------

  predicate Succeeded(reply: Reply) { reply.Claimed? || reply.Leased? }

  /** The claim would be granted if nothing came in between. A lease that ran out unacked can be taken over, which is the
   *  recovery from a crashed holder; a plain claim by the present holder is answered without a new claim even then. */
  predicate Grantable(db: Db, req: ClaimRequest) {
              && (req.lease.Some? ==> 30 <= req.lease.value <= 3600)
              && req.m in db.messages
              && var row := db.messages[req.m];
                 && row.expiresAt > db.now
                 && row.channel in db.channels && db.channels[row.channel].mode.Claimable? && req.allowed
                 && (row.holder.None?
                     || (LeaseExpired(row, db.now) && !Acked(row.log) && (req.lease.None? ==> row.holder.value != req.actor)))
  }

  lemma WholeSucceedsIff(db: Db, req: ClaimRequest)
    ensures Succeeded(ClaimWhole(db, req).1) <==> Grantable(db, req)
  {
  }

  /** The four steps of a claim, uninterrupted, end in a grant exactly when the tables allow it: its guarded UPDATE then
   *  never loses. */
  lemma ClaimSucceedsIff(w: World, r: RequestId, req: ClaimRequest)
    requires r !in w.requests
    ensures
      var q := Pending(Exec(w, Steps(Claim(r, req))), r);
      q.Some? && q.value.Finished? && (Succeeded(q.value.reply) <==> Grantable(w.db, req))
  {
    ClaimIsWhole(w, r, req);
    WholeSucceedsIff(w.db, req);
  }

  /** What that grant leaves in the world: the claimer's row, with the event naming whom it displaced, a token and an end
   *  for a lease only, and nothing else changed. */
  lemma ClaimLeaves(w: World, r: RequestId, req: ClaimRequest) returns (end: World, row: Message)
    requires r !in w.requests && Grantable(w.db, req)
    ensures end == Exec(w, Steps(Claim(r, req)))
    ensures end.db == w.db.(messages := w.db.messages[req.m := row], nextToken := end.db.nextToken)
    ensures row.holder == Some(req.actor) && row.claimedAt == Some(w.db.now) && row.claimedKey == Some(req.key)
    ensures SamePost(row, w.db.messages[req.m])
    ensures
      var displaced := if w.db.messages[req.m].holder == Some(req.actor) then None else w.db.messages[req.m].holder;
      row.log == w.db.messages[req.m].log + [Event(ClaimEvent, req.actor, w.db.now, displaced)]
    ensures
      if req.lease.None? then row.token.None? && row.leaseEnd.None? && Pending(end, r) == Some(Finished(Claimed))
      else row.token.Some? && row.leaseEnd == Some(w.db.now + req.lease.value * SECOND)
           && Pending(end, r) == Some(Finished(Leased(row.token.value, row.leaseEnd.value)))
  {
    WholeSucceedsIff(w.db, req);
    ClaimIsWhole(w, r, req);
    GrantedRow(w.db, req);
    end := Exec(w, Steps(Claim(r, req)));
    row := end.db.messages[req.m];
  }

  /** What a granted claim leaves behind: the claimer holds the message from now on, the event names the holder it
   *  displaced if that was someone else, only a lease has a token and an end, and nothing else changes. */
  lemma GrantedRow(db: Db, req: ClaimRequest)
    requires Succeeded(ClaimWhole(db, req).1)
    ensures
      var (after, reply) := ClaimWhole(db, req);
      var (was, now) := (db.messages[req.m], after.messages[req.m]);
      && after == db.(messages := db.messages[req.m := now], nextToken := after.nextToken)
      && now == was.(holder := Some(req.actor), claimedAt := Some(db.now), claimedKey := Some(req.key),
                     token := now.token, leaseEnd := now.leaseEnd, log := now.log)
      && now.log == was.log + [Event(ClaimEvent, req.actor, db.now, if was.holder == Some(req.actor) then None else was.holder)]
      && (if req.lease.None? then reply.Claimed? && now.token.None? && now.leaseEnd.None?
          else reply.Leased? && now.token == Some(reply.token) && now.leaseEnd == Some(reply.leaseEnd)
               && reply.leaseEnd == db.now + req.lease.value * SECOND)
  {
  }

  /** A lease token is new to the whole history. */
  lemma LeaseTokenIsNew(run: seq<Label>, req: ClaimRequest, j: int)
    requires ClaimWhole(Exec(START, run).db, req).1.Leased?
    requires 0 <= j < |Exec(START, run).history| && Issues(Exec(START, run).history[j])
    ensures Exec(START, run).history[j].what.token != Some(ClaimWhole(Exec(START, run).db, req).1.token)
  {
    Reachable(run);
    assert TokensFresh(Exec(START, run).history, Exec(START, run).db.nextToken);
  }

  lemma TokenRowIs(ms: MessageTable, m: MessageId, token: Token)
    requires TokensDistinct(ms) && m in ms && ms[m].token == Some(token)
    ensures TokenRow(ms, token) == Some(m)
  {
    assert HasToken(ms[m], token);
  }

  lemma LeaseBeats(db: Db, m: MessageId, token: Token, seconds: int)
    requires TokensDistinct(db.messages) && m in db.messages && db.messages[m].token == Some(token)
    requires db.messages[m].leaseEnd.Some? && db.messages[m].leaseEnd.value > db.now && 30 <= seconds <= 3600
    ensures
      var (after, reply) := Heartbeat(db, token, seconds);
      reply == Extended(db.now + seconds * SECOND) && after.messages[m].leaseEnd == Some(db.now + seconds * SECOND)
  {
    TokenRowIs(db.messages, m, token);
  }

  lemma ReleaseLeavesLease(db: Db, m: MessageId, actor: Actor, allowed: bool)
    requires TokensDistinct(db.messages) && Release(db, m, actor, allowed).1.Released?
    ensures
      var after := Release(db, m, actor, allowed).0;
      && TokensDistinct(after.messages) && after.now == db.now && m in after.messages && after.messages[m].holder.None?
      && after.messages[m].token == db.messages[m].token && after.messages[m].leaseEnd == db.messages[m].leaseEnd
  {
  }

  /** A release leaves the lease behind: until it runs out or the message is claimed again, its token still beats. */
  lemma ReleasedLeaseBeats(run: seq<Label>, m: MessageId, actor: Actor, allowed: bool, after: Db, token: Token, seconds: int)
    requires Release(Exec(START, run).db, m, actor, allowed) == (after, Released)
    requires m in after.messages && after.messages[m].token == Some(token) && 30 <= seconds <= 3600
    requires after.messages[m].leaseEnd.Some? && after.messages[m].leaseEnd.value > after.now
    ensures after.messages[m].holder.None?
    ensures Heartbeat(after, token, seconds).1 == Extended(after.now + seconds * SECOND)
  {
    Reachable(run);
    ReleaseLeavesLease(Exec(START, run).db, m, actor, allowed);
    LeaseBeats(after, m, token, seconds);
  }
}
