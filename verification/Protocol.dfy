/** The message protocol as a state machine over arbitrarily interleaved requests.
 *
 * Claim, claim-with-lease, retract, the sweep and the cleanup run as several steps, each request
 * keeping its own program counter and the rows it read; every other request is one step. `history`
 * is a history variable: it records what each successful step did, by the rule of that step and from
 * the tables before it, and is read by no step.
 */
module Protocol {
  import opened Common
  import opened Tables

  type RequestId = nat

  datatype Request =
    | AtChannel(req: ClaimRequest, seen: Message)
    | AtDecision(req: ClaimRequest, seen: Message)
    | AtUpdate(req: ClaimRequest, prev: Option<Actor>, at: Time)
    | Sweeping(cutoff: Time, todo: seq<MessageId>, count: nat)
    | AtRetractCheck(m: MessageId, seen: Message, allowed: bool)
    | AtRetractWrite(m: MessageId, seen: Message)
    | Cleaning(cutoff: Time, order: seq<MessageId>, rows: MessageTable)
    | Finished(reply: Reply)
    | SweepDone(count: nat)
    | CleanDone(archived: nat, purged: nat)
    | CleanFailed

  datatype What =
    | Appeared(m: MessageId, post: Message, trimmed: set<MessageId>)
    | Granted(m: MessageId, actor: Actor, token: Option<Token>, at: Time, leaseEnd: Option<Time>, over: Option<Actor>)
    | Beat(m: MessageId, lease: Token, until: Time)
    | Freed(m: MessageId, actor: Actor)
    | SweptRow(m: MessageId, cutoff: Time, from: Option<Actor>)
    | Vouched(m: MessageId, actor: Actor)
    | Cleaned(cutoff: Time, cleared: set<MessageId>, freed: set<MessageId>, removed: set<MessageId>,
              rows: seq<Archived>, purged: seq<Archived>)
    | Withdrawn(row: Archived, removed: set<MessageId>)
    | Dropped(ms: set<MessageId>)

  /** `wall` is the clock when the step happened; `at` and `cutoff` inside `what` were captured earlier. */
  datatype Entry = Entry(wall: Time, what: What)

  datatype World = World(db: Db, requests: map<RequestId, Request>, history: seq<Entry>)

  const START: World := World(EMPTY, map[], [])

  /** The requests that run as one step. */
  datatype Op =
    | Tick(d: nat)
    | CreateChannel(config: Channel)
    | UpdateChannel(c: ChannelId, config: Channel)
    | PostMessage(post: PostRequest)
    | Pulse(token: Token, seconds: int)
    | GiveBack(m: MessageId, actor: Actor, allowed: bool)
    | Acknowledge(m: MessageId, actor: Actor, allowed: bool)
    | RemoveChannel(c: ChannelId, owner: bool)

  datatype Label =
    | Do(op: Op)
    | ClaimStart(r: RequestId, req: ClaimRequest)
    | ClaimChannel(r: RequestId)
    | ClaimCheck(r: RequestId)
    | ClaimWrite(r: RequestId)
    | SweepStart(r: RequestId, order: seq<MessageId>)
    | SweepNext(r: RequestId)
    | RetractStart(r: RequestId, m: MessageId, allowed: bool)
    | RetractCheck(r: RequestId)
    | RetractWrite(r: RequestId)
    | CleanStart(r: RequestId, order: seq<MessageId>)
    | CleanWrite(r: RequestId, fault: bool)

  ghost function Logged(w: World, db: Db, what: What): World {
    w.(db := db, history := w.history + [Entry(w.db.now, what)])
  }

  function Answered(w: World, r: RequestId, next: Request): World {
    w.(requests := w.requests[r := next])
  }

  function StartClaim(w: World, r: RequestId, req: ClaimRequest): World {
    match ClaimRead(w.db, req)
    case Missing(reply) => Answered(w, r, Finished(reply))
    case Row(seen) => Answered(w, r, AtChannel(req, seen))
  }

  function CheckChannel(w: World, r: RequestId, req: ClaimRequest, seen: Message): World {
    match ClaimableChannel(w.db, seen.channel, req.allowed)
    case Some(reply) => Answered(w, r, Finished(reply))
    case None => Answered(w, r, AtDecision(req, seen))
  }

  function Decide(w: World, r: RequestId, req: ClaimRequest, seen: Message): World {
    match ClaimDecide(w.db, req, seen)
    case Answer(reply) => Answered(w, r, Finished(reply))
    case Proceed(at) => Answered(w, r, AtUpdate(req, seen.holder, at))
  }

  /** What a successful claim UPDATE records: the token and lease it wrote and whom it displaced. */
  function Grant(db: Db, req: ClaimRequest, at: Time): What
    requires req.m in db.messages
  {
    Granted(req.m, req.actor,
            if req.lease.None? then None else Some(db.nextToken), at,
            if req.lease.None? then None else Some(at + req.lease.value * SECOND),
            db.messages[req.m].holder)
  }

  ghost function WriteClaim(w: World, r: RequestId, req: ClaimRequest, prev: Option<Actor>, at: Time): World {
    var (db, reply) := ClaimUpdate(w.db, req, prev, at);
    if req.m in w.db.messages && Open(w.db.messages[req.m], at)
    then Answered(Logged(w, db, Grant(w.db, req, at)), r, Finished(reply))
    else Answered(w, r, Finished(reply))
  }

  ghost function DoPulse(w: World, token: Token, seconds: int): World {
    var (db, reply) := Heartbeat(w.db, token, seconds);
    if reply.Extended? then Logged(w, db, Beat(TokenRow(w.db.messages, token).value, token, reply.leaseEnd)) else w
  }

  ghost function DoRelease(w: World, m: MessageId, actor: Actor, allowed: bool): World {
    var (db, reply) := Release(w.db, m, actor, allowed);
    if reply.Released? then Logged(w, db, Freed(m, actor)) else w
  }

  ghost function DoAck(w: World, m: MessageId, actor: Actor, allowed: bool): World {
    var (db, reply) := Ack(w.db, m, actor, allowed);
    if reply == Acknowledged(true) then Logged(w, db, Vouched(m, actor)) else w
  }

  /** The SELECT of the sweep may list its rows in any order. */
  ghost predicate SweepListing(ms: MessageTable, cutoff: Time, order: seq<MessageId>) {
    && (forall m :: m in order <==> m in SweepSelect(ms, cutoff))
    && (forall i, j :: 0 <= i < j < |order| ==> order[i] != order[j])
  }

  ghost function SweepStep(w: World, r: RequestId, cutoff: Time, todo: seq<MessageId>, count: nat): World {
    if todo == [] then Answered(w, r, SweepDone(count))
    else if SweepHits(w.db.messages, todo[0], cutoff) then
      Answered(Logged(w, SweepRow(w.db, todo[0], cutoff), SweptRow(todo[0], cutoff, w.db.messages[todo[0]].holder)),
               r, Sweeping(cutoff, todo[1..], count + 1))
    else Answered(w, r, Sweeping(cutoff, todo[1..], count))
  }

  /** What the ring buffer discards when a channel holds `rows`. */
  function Discarded(rows: set<MessageId>, cap: Option<nat>): set<MessageId> {
    if cap.None? then {} else rows - Newest(rows, cap.value)
  }

  /** What an accepted post records: the new row and the rows the ring buffer discards for it. */
  ghost function Posting(db: Db, post: PostRequest): What
    requires post.channel in db.channels
  {
    var before := Inserted(db, post);
    Appeared(db.nextMessage, before[db.nextMessage],
             Discarded(InChannel(before, post.channel), db.channels[post.channel].maxMessages))
  }

  ghost function DoPost(w: World, post: PostRequest): World {
    var (db, reply) := Post(w.db, post);
    if reply.Posted? then Logged(w, db, Posting(w.db, post)) else w
  }

  /** What a committed cleanup records: rows whose lease it clears, the claimed ones among them, rows it deletes, rows
   *  it archives, archive rows past their retention. */
  function Summary(db: Db, cutoff: Time, order: seq<MessageId>, seen: MessageTable): What {
    var cleared := set m | m in db.messages && CleanupClears(db.messages[m], cutoff);
    var rows := ArchiveAll(seen, db.messages, order, db.now);
    Cleaned(cutoff, cleared, (set m | m in cleared && db.messages[m].holder.Some?), Outlived(db.messages, cutoff), rows,
            Keep(db.audit + rows, a => !Retained(db.channels, db.now, a)))
  }

  /** The clock and the listing of a cleanup, read before its transaction. */
  ghost function StartClean(w: World, r: RequestId, order: seq<MessageId>): World {
    if ExpiredListing(w.db.messages, w.db.now, order) then Answered(w, r, Cleaning(w.db.now, order, w.db.messages)) else w
  }

  /** The transaction: it commits or, when anything in it fails, changes nothing. */
  ghost function WriteClean(w: World, r: RequestId, cutoff: Time, order: seq<MessageId>, seen: MessageTable, fault: bool): World {
    if fault || !CanArchive(w.db, order, seen) then Answered(w, r, CleanFailed)
    else
      Answered(Logged(w, CleanupUpdate(w.db, cutoff, order, seen), Summary(w.db, cutoff, order, seen)), r,
               CleanDone(|order|, |Outlived(w.db.messages, cutoff)|))
  }

  function StartRetract(w: World, r: RequestId, m: MessageId, allowed: bool): World {
    match RetractRead(w.db, m)
    case Missing(reply) => Answered(w, r, Finished(reply))
    case Row(seen) => Answered(w, r, AtRetractCheck(m, seen, allowed))
  }

  function CheckRetract(w: World, r: RequestId, m: MessageId, seen: Message, allowed: bool): World {
    match RetractRefusal(w.db, seen, allowed)
    case Some(reply) => Answered(w, r, Finished(reply))
    case None => Answered(w, r, AtRetractWrite(m, seen))
  }

  /** What a retract records: the row it archives and the row its DELETE finds, if any. */
  function Retraction(db: Db, m: MessageId, seen: Message): What {
    Withdrawn(Archive(m, seen, [], db.now), if m in db.messages then {m} else {})
  }

  ghost function WriteRetract(w: World, r: RequestId, m: MessageId, seen: Message): World {
    Answered(Logged(w, RetractUpdate(w.db, m, seen), Retraction(w.db, m, seen)), r, Finished(Retracted))
  }

  ghost function DoRemoveChannel(w: World, c: ChannelId, owner: bool): World {
    var (db, reply) := DeleteChannel(w.db, c, owner);
    if reply.ChannelDeleted? then Logged(w, db, Dropped(InChannel(w.db.messages, c))) else w
  }

  function MakeChannel(w: World, config: Channel): World {
    w.(db := w.db.(channels := w.db.channels[w.db.nextChannel := config], nextChannel := w.db.nextChannel + 1))
  }

  /** A request in flight at one of the steps of a claim. */
  function Pending(w: World, r: RequestId): Option<Request> {
    if r in w.requests then Some(w.requests[r]) else None
  }

  ghost function Perform(w: World, op: Op): World {
    match op
    case Tick(d) => w.(db := w.db.(now := w.db.now + d))
    case CreateChannel(config) => MakeChannel(w, config)
    case UpdateChannel(c, config) =>
      // PATCH accepts every field of the model's channel but the TTL
      if c in w.db.channels
      then w.(db := w.db.(channels := w.db.channels[c := config.(ttlSeconds := w.db.channels[c].ttlSeconds)]))
      else w
    case PostMessage(post) => DoPost(w, post)
    case Pulse(token, seconds) => DoPulse(w, token, seconds)
    case GiveBack(m, actor, allowed) => DoRelease(w, m, actor, allowed)
    case Acknowledge(m, actor, allowed) => DoAck(w, m, actor, allowed)
    case RemoveChannel(c, owner) => DoRemoveChannel(w, c, owner)
  }

  /** One step. A label that does not apply to the world leaves it alone. */
  ghost function Next(w: World, l: Label): World {
    match l
    case Do(op) => Perform(w, op)
    case ClaimStart(r, req) => if r in w.requests then w else StartClaim(w, r, req)
    case ClaimChannel(r) =>
      (match Pending(w, r) case Some(AtChannel(req, seen)) => CheckChannel(w, r, req, seen) case _ => w)
    case ClaimCheck(r) =>
      (match Pending(w, r) case Some(AtDecision(req, seen)) => Decide(w, r, req, seen) case _ => w)
    case ClaimWrite(r) =>
      (match Pending(w, r) case Some(AtUpdate(req, prev, at)) => WriteClaim(w, r, req, prev, at) case _ => w)
    case SweepStart(r, order) =>
      if r in w.requests || !SweepListing(w.db.messages, w.db.now, order) then w
      else Answered(w, r, Sweeping(w.db.now, order, 0))
    case SweepNext(r) =>
      (match Pending(w, r) case Some(Sweeping(cutoff, todo, count)) => SweepStep(w, r, cutoff, todo, count) case _ => w)
    case RetractStart(r, m, allowed) => if r in w.requests then w else StartRetract(w, r, m, allowed)
    case RetractCheck(r) =>
      (match Pending(w, r) case Some(AtRetractCheck(m, seen, allowed)) => CheckRetract(w, r, m, seen, allowed) case _ => w)
    case RetractWrite(r) =>
      (match Pending(w, r) case Some(AtRetractWrite(m, seen)) => WriteRetract(w, r, m, seen) case _ => w)
    case CleanStart(r, order) => if r in w.requests then w else StartClean(w, r, order)
    case CleanWrite(r, fault) =>
      (match Pending(w, r)
       case Some(Cleaning(cutoff, order, seen)) => WriteClean(w, r, cutoff, order, seen, fault)
       case _ => w)
  }

  lemma PerformRequests(w: World, op: Op)
    ensures Perform(w, op).requests == w.requests
  {
  }

  /** The history only grows. */
  lemma NextHistory(w: World, l: Label)
    ensures |w.history| <= |Next(w, l).history| && Next(w, l).history[..|w.history|] == w.history
  {
  }

  predicate SamePost(a: Message, b: Message) {
    && a.channel == b.channel && a.rowid == b.rowid && a.content == b.content
    && a.createdAt == b.createdAt && a.expiresAt == b.expiresAt
  }

  /** The same posts, archive and channels; only claim columns and event logs may differ. */
  ghost predicate SameRows(was: Db, db: Db) {
    && db.messages.Keys == was.messages.Keys
    && (forall m :: m in db.messages ==> SamePost(db.messages[m], was.messages[m]))
    && db.audit == was.audit && db.channels == was.channels && db.now == was.now
    && db.nextMessage == was.nextMessage && db.nextChannel == was.nextChannel
  }

  predicate AboutClaims(what: What) {
    what.Granted? || what.Beat? || what.Freed? || what.SweptRow? || what.Vouched?
  }

  ghost predicate Quiet(w: World, next: World) {
    && SameRows(w.db, next.db)
    && (next.history == w.history
        || (|next.history| == |w.history| + 1 && next.history == w.history + [next.history[|w.history|]]
            && AboutClaims(next.history[|w.history|].what)))
  }

  /** Claims, heartbeats, releases, acks and sweeps neither add, remove nor edit a post. */
  lemma ClaimOpsQuiet(w: World, op: Op)
    requires op.Pulse? || op.GiveBack? || op.Acknowledge?
    ensures Quiet(w, Perform(w, op))
  {
  }

  /** The steps that remove rows: a retract's and a cleanup's transaction. */
  predicate Removing(l: Label) { l.RetractWrite? || l.CleanWrite? }

  lemma WritesQuiet(w: World, l: Label)
    requires l.ClaimWrite? || l.SweepNext?
    ensures Quiet(w, Next(w, l))
  {
  }

  lemma ReadsQuiet(w: World, l: Label)
    requires !l.Do? && !Removing(l) && !l.ClaimWrite? && !l.SweepNext?
    ensures Next(w, l).db == w.db && Next(w, l).history == w.history
  {
  }

  lemma RequestsQuiet(w: World, l: Label)
    requires !l.Do? && !Removing(l)
    ensures Quiet(w, Next(w, l))
  {
    if l.ClaimWrite? || l.SweepNext? { WritesQuiet(w, l); } else { ReadsQuiet(w, l); }
  }

  /** The world after a run. */
  ghost function Exec(w: World, run: seq<Label>): World {
    if run == [] then w else Next(Exec(w, run[..|run| - 1]), run[|run| - 1])
  }

  /** Whatever runs, what was recorded stays recorded. */
  lemma {:induction false} HistoryGrows(w: World, run: seq<Label>)
    ensures |w.history| <= |Exec(w, run).history| && Exec(w, run).history[..|w.history|] == w.history
  {
    if run != [] {
      var most := run[..|run| - 1];
      HistoryGrows(w, most);
      NextHistory(Exec(w, most), run[|run| - 1]);
      var (h, g) := (Exec(w, most).history, Exec(w, run).history);
      assert g[..|w.history|] == g[..|h|][..|w.history|];
    }
  }

  lemma {:induction false} ExecAppend(w: World, a: seq<Label>, b: seq<Label>)
    ensures Exec(w, a + b) == Exec(Exec(w, a), b)
    decreases |b|
  {
    if b == [] {
      assert a + b == a;
    } else {
      assert (a + b)[..|a + b| - 1] == a + b[..|b| - 1];
      ExecAppend(w, a, b[..|b| - 1]);
    }
  }

  lemma ExecOne(w: World, l: Label)
    ensures Exec(w, [l]) == Next(w, l)
  {
    assert [l][..0] == [];
  }

  lemma ExecCons(w: World, l: Label, run: seq<Label>)
    ensures Exec(w, [l] + run) == Exec(Next(w, l), run)
  {
    ExecAppend(w, [l], run);
    ExecOne(w, l);
  }

  // ---------- requests that nothing interrupts ----------

  datatype Whole =
    | One(op: Op)
    | Claim(r: RequestId, req: ClaimRequest)
    | Sweep(r: RequestId, order: seq<MessageId>)
    | TakeBack(r: RequestId, m: MessageId, allowed: bool)
    | CleanUp(r: RequestId, order: seq<MessageId>, fault: bool)

  function Repeat(l: Label, n: nat): seq<Label> {
    if n == 0 then [] else [l] + Repeat(l, n - 1)
  }

  lemma {:induction false} InRepeat(l: Label, n: nat)
    ensures forall x :: x in Repeat(l, n) ==> x == l
  {
    if n > 0 { InRepeat(l, n - 1); }
  }

  function Steps(x: Whole): seq<Label> {
    match x
    case One(op) => [Do(op)]
    case Claim(r, req) => [ClaimStart(r, req), ClaimChannel(r), ClaimCheck(r), ClaimWrite(r)]
    case Sweep(r, order) => [SweepStart(r, order)] + Repeat(SweepNext(r), |order| + 1)
    case TakeBack(r, m, allowed) => [RetractStart(r, m, allowed), RetractCheck(r), RetractWrite(r)]
    case CleanUp(r, order, fault) => [CleanStart(r, order), CleanWrite(r, fault)]
  }

  function Flatten(xs: seq<Whole>): seq<Label> {
    if xs == [] then [] else Flatten(xs[..|xs| - 1]) + Steps(xs[|xs| - 1])
  }

  predicate Over(q: Request) { q.Finished? || q.SweepDone? || q.CleanDone? || q.CleanFailed? }

  /** No request is between two of its steps. */
  ghost predicate Settled(w: World) {
    forall r :: r in w.requests ==> Over(w.requests[r])
  }

  lemma ExecFour(w: World, a: Label, b: Label, c: Label, d: Label)
    ensures Exec(w, [a, b, c, d]) == Next(Next(Next(Next(w, a), b), c), d)
  {
    ExecCons(w, a, [b, c, d]);
    ExecCons(Next(w, a), b, [c, d]);
    ExecCons(Next(Next(w, a), b), c, [d]);
    assert [a] + [b, c, d] == [a, b, c, d] && [b] + [c, d] == [b, c, d] && [c] + [d] == [c, d];
    assert [d][..0] == [];
  }

  lemma FinishedStays(w: World, r: RequestId)
    requires r in w.requests && w.requests[r].Finished?
    ensures Next(w, ClaimChannel(r)) == w && Next(w, ClaimCheck(r)) == w && Next(w, ClaimWrite(r)) == w
  {
  }

  /** A claim past its first read, run to its end. */
  lemma ClaimFromRow(w: World, r: RequestId, req: ClaimRequest, seen: Message)
    requires Pending(w, r) == Some(AtChannel(req, seen)) && ClaimRead(w.db, req) == Row(seen)
    ensures
      var end := Next(Next(Next(w, ClaimChannel(r)), ClaimCheck(r)), ClaimWrite(r));
      && end.db == ClaimWhole(w.db, req).0
      && end.requests == w.requests[r := Finished(ClaimWhole(w.db, req).1)]
      && (end.history == w.history
          || (req.m in w.db.messages && end.history == w.history + [Entry(w.db.now, Grant(w.db, req, w.db.now))]))
  {
    var w2 := Next(w, ClaimChannel(r));
    match ClaimableChannel(w.db, seen.channel, req.allowed)
    case Some(reply) => FinishedStays(w2, r);
    case None =>
      assert w2 == Answered(w, r, AtDecision(req, seen));
      var w3 := Next(w2, ClaimCheck(r));
      match ClaimDecide(w.db, req, seen)
      case Answer(reply) => FinishedStays(w3, r);
      case Proceed(at) => assert w3 == Answered(w2, r, AtUpdate(req, seen.holder, at));
  }

  /** The four steps of a claim, run together, are the whole request. */
  lemma ClaimIsWhole(w: World, r: RequestId, req: ClaimRequest)
    requires r !in w.requests
    ensures
      var end := Exec(w, Steps(Claim(r, req)));
      && end.db == ClaimWhole(w.db, req).0
      && end.requests == w.requests[r := Finished(ClaimWhole(w.db, req).1)]
      && (end.history == w.history
          || (req.m in w.db.messages && end.history == w.history + [Entry(w.db.now, Grant(w.db, req, w.db.now))]))
  {
    ExecFour(w, ClaimStart(r, req), ClaimChannel(r), ClaimCheck(r), ClaimWrite(r));
    var w1 := Next(w, ClaimStart(r, req));
    match ClaimRead(w.db, req)
    case Missing(reply) => FinishedStays(w1, r);
    case Row(seen) =>
      assert w1 == Answered(w, r, AtChannel(req, seen));
      ClaimFromRow(w1, r, req, seen);
  }

  lemma {:induction false} SweepRuns(w: World, r: RequestId, cutoff: Time, todo: seq<MessageId>, count: nat)
    requires Pending(w, r) == Some(Sweeping(cutoff, todo, count))
    ensures
      var end := Exec(w, Repeat(SweepNext(r), |todo| + 1));
      && end.db == SweepRows(w.db, todo, cutoff)
      && end.requests.Keys == w.requests.Keys && r in end.requests && end.requests[r].SweepDone?
      && (forall x :: x in w.requests && x != r ==> end.requests[x] == w.requests[x])
    decreases |todo|
  {
    var next := Next(w, SweepNext(r));
    ExecCons(w, SweepNext(r), Repeat(SweepNext(r), |todo|));
    if todo != [] {
      SweepRuns(next, r, cutoff, todo[1..], next.requests[r].count);
    }
  }

  /** The sweep's SELECT and all its UPDATEs, run together. */
  lemma SweepIsWhole(w: World, r: RequestId, order: seq<MessageId>)
    requires r !in w.requests && SweepListing(w.db.messages, w.db.now, order)
    ensures
      var end := Exec(w, Steps(Sweep(r, order)));
      && end.db == SweepRows(w.db, order, w.db.now)
      && end.requests.Keys == w.requests.Keys + {r} && end.requests[r].SweepDone?
      && (forall x :: x in w.requests ==> end.requests[x] == w.requests[x])
  {
    ExecCons(w, SweepStart(r, order), Repeat(SweepNext(r), |order| + 1));
    SweepRuns(Next(w, SweepStart(r, order)), r, w.db.now, order, 0);
  }

  lemma {:induction false} Idle(w: World, r: RequestId, n: nat)
    requires Pending(w, r).None? || !w.requests[r].Sweeping?
    ensures Exec(w, Repeat(SweepNext(r), n)) == w
  {
    if n > 0 {
      ExecCons(w, SweepNext(r), Repeat(SweepNext(r), n - 1));
      Idle(w, r, n - 1);
    }
  }

  /** A request identifier in use is refused by the model. */
  lemma ClaimBlocked(w: World, r: RequestId, req: ClaimRequest)
    requires r in w.requests && Over(w.requests[r])
    ensures Exec(w, Steps(Claim(r, req))) == w
  {
    ExecFour(w, ClaimStart(r, req), ClaimChannel(r), ClaimCheck(r), ClaimWrite(r));
    assert Next(w, ClaimStart(r, req)) == Next(w, ClaimChannel(r)) == Next(w, ClaimCheck(r)) == Next(w, ClaimWrite(r)) == w;
  }

  lemma ClaimSettles(w: World, r: RequestId, req: ClaimRequest)
    requires Settled(w)
    ensures Settled(Exec(w, Steps(Claim(r, req))))
  {
    if r !in w.requests {
      ClaimIsWhole(w, r, req);
    } else {
      ClaimBlocked(w, r, req);
    }
  }

  lemma SweepSettles(w: World, r: RequestId, order: seq<MessageId>)
    requires Settled(w)
    ensures Settled(Exec(w, Steps(Sweep(r, order))))
  {
    if r !in w.requests && SweepListing(w.db.messages, w.db.now, order) {
      SweepIsWhole(w, r, order);
    } else {
      ExecCons(w, SweepStart(r, order), Repeat(SweepNext(r), |order| + 1));
      Idle(w, r, |order| + 1);
    }
  }

  lemma ExecTwo(w: World, a: Label, b: Label)
    ensures Exec(w, [a, b]) == Next(Next(w, a), b)
  {
    ExecCons(w, a, [b]);
    ExecOne(Next(w, a), b);
    assert [a] + [b] == [a, b];
  }

  lemma ExecThree(w: World, a: Label, b: Label, c: Label)
    ensures Exec(w, [a, b, c]) == Next(Next(Next(w, a), b), c)
  {
    ExecCons(w, a, [b, c]);
    ExecTwo(Next(w, a), b, c);
    assert [a] + [b, c] == [a, b, c];
  }

  /** A retract past its read, run to its end. */
  lemma RetractFromRow(w: World, r: RequestId, m: MessageId, seen: Message, allowed: bool)
    requires Pending(w, r) == Some(AtRetractCheck(m, seen, allowed)) && m in w.db.messages && seen == w.db.messages[m]
    ensures
      var end := Next(Next(w, RetractCheck(r)), RetractWrite(r));
      && end.db == Retract(w.db, m, allowed).0
      && end.requests == w.requests[r := Finished(Retract(w.db, m, allowed).1)]
      && end.history == if Retract(w.db, m, allowed).1.Retracted?
                        then w.history + [Entry(w.db.now, Withdrawn(Archive(m, seen, [], w.db.now), {m}))]
                        else w.history
  {
    if RetractRefusal(w.db, seen, allowed).None? {
      assert Next(w, RetractCheck(r)) == Answered(w, r, AtRetractWrite(m, seen));
    }
  }

  /** The three steps of a retract, run together, are the whole request. */
  lemma RetractIsWhole(w: World, r: RequestId, m: MessageId, allowed: bool)
    requires r !in w.requests
    ensures
      var end := Exec(w, Steps(TakeBack(r, m, allowed)));
      && end.db == Retract(w.db, m, allowed).0
      && end.requests == w.requests[r := Finished(Retract(w.db, m, allowed).1)]
      && end.history == if Retract(w.db, m, allowed).1.Retracted?
                        then w.history + [Entry(w.db.now, Withdrawn(Archive(m, w.db.messages[m], [], w.db.now), {m}))]
                        else w.history
  {
    ExecThree(w, RetractStart(r, m, allowed), RetractCheck(r), RetractWrite(r));
    var w1 := Next(w, RetractStart(r, m, allowed));
    if m in w.db.messages {
      assert w1 == Answered(w, r, AtRetractCheck(m, w.db.messages[m], allowed));
      RetractFromRow(w1, r, m, w.db.messages[m], allowed);
    }
  }

  /** The transaction of a cleanup, from its outside. */
  lemma CleanWritten(w: World, r: RequestId, cutoff: Time, order: seq<MessageId>, seen: MessageTable, fault: bool)
    ensures
      var end := WriteClean(w, r, cutoff, order, seen, fault);
      if fault || !CanArchive(w.db, order, seen)
      then end.db == w.db && end.history == w.history && end.requests == w.requests[r := CleanFailed]
      else && end.db == CleanupUpdate(w.db, cutoff, order, seen)
           && end.history == w.history + [Entry(w.db.now, Summary(w.db, cutoff, order, seen))]
           && end.requests == w.requests[r := CleanDone(|order|, |Outlived(w.db.messages, cutoff)|)]
  {
  }

  lemma CleanFromListing(w: World, r: RequestId, order: seq<MessageId>, fault: bool) returns (end: World)
    requires r !in w.requests && ExpiredListing(w.db.messages, w.db.now, order)
    ensures end == Exec(w, Steps(CleanUp(r, order, fault)))
    ensures end == WriteClean(Answered(w, r, Cleaning(w.db.now, order, w.db.messages)), r, w.db.now, order, w.db.messages, fault)
  {
    ExecTwo(w, CleanStart(r, order), CleanWrite(r, fault));
    end := Exec(w, Steps(CleanUp(r, order, fault)));
  }

  /** The listing and the transaction of a cleanup, run together, are one cleanup, or none when it fails; as many rows
   *  are archived as deleted. */
  lemma CleanIsWhole(w: World, r: RequestId, order: seq<MessageId>, fault: bool) returns (end: World)
    requires r !in w.requests && ExpiredListing(w.db.messages, w.db.now, order)
    ensures end == Exec(w, Steps(CleanUp(r, order, fault)))
    ensures
      if fault || !CanArchive(w.db, order, w.db.messages)
      then end.db == w.db && end.history == w.history && end.requests == w.requests[r := CleanFailed]
      else && end.db == Cleanup(w.db, order)
           && end.history == w.history + [Entry(w.db.now, Summary(w.db, w.db.now, order, w.db.messages))]
           && end.requests == w.requests[r := CleanDone(|order|, |order|)]
  {
    end := CleanFromListing(w, r, order, fault);
    var listed := Answered(w, r, Cleaning(w.db.now, order, w.db.messages));
    CleanWritten(listed, r, w.db.now, order, w.db.messages, fault);
    ListingSize(order, Outlived(w.db.messages, w.db.now));
    assert listed.requests[r := CleanFailed] == w.requests[r := CleanFailed];
    assert listed.requests[r := CleanDone(|order|, |order|)] == w.requests[r := CleanDone(|order|, |order|)];
  }

  /** A sequence without repetition is as long as the set of its elements. */
  lemma {:induction false} ListingSize(order: seq<MessageId>, s: set<MessageId>)
    requires forall m :: m in order <==> m in s
    requires forall i, j :: 0 <= i < j < |order| ==> order[i] != order[j]
    ensures |order| == |s|
  {
    if order == [] {
      assert s == {};
    } else {
      var last := |order| - 1;
      assert order[last] in order;
      forall m ensures m in order[..last] <==> m in s - {order[last]} {
        if m in order { var i :| 0 <= i < |order| && order[i] == m; }
      }
      ListingSize(order[..last], s - {order[last]});
    }
  }

  lemma RetractBlocked(w: World, r: RequestId, m: MessageId, allowed: bool)
    requires r in w.requests && Over(w.requests[r])
    ensures Exec(w, Steps(TakeBack(r, m, allowed))) == w
  {
    ExecThree(w, RetractStart(r, m, allowed), RetractCheck(r), RetractWrite(r));
    assert Next(w, RetractStart(r, m, allowed)) == Next(w, RetractCheck(r)) == Next(w, RetractWrite(r)) == w;
  }

  /** So is a listing that is not one of the expired rows. */
  lemma CleanBlocked(w: World, r: RequestId, order: seq<MessageId>, fault: bool)
    requires if r in w.requests then Over(w.requests[r]) else !ExpiredListing(w.db.messages, w.db.now, order)
    ensures Exec(w, Steps(CleanUp(r, order, fault))) == w
  {
    ExecTwo(w, CleanStart(r, order), CleanWrite(r, fault));
    CleanStays(w, r, order, fault);
  }

  lemma CleanStays(w: World, r: RequestId, order: seq<MessageId>, fault: bool)
    requires if r in w.requests then Over(w.requests[r]) else !ExpiredListing(w.db.messages, w.db.now, order)
    ensures Next(w, CleanStart(r, order)) == w && Next(w, CleanWrite(r, fault)) == w
  {
  }

  lemma RetractSettles(w: World, r: RequestId, m: MessageId, allowed: bool)
    requires Settled(w)
    ensures Settled(Exec(w, Steps(TakeBack(r, m, allowed))))
  {
    if r !in w.requests {
      RetractIsWhole(w, r, m, allowed);
    } else {
      RetractBlocked(w, r, m, allowed);
    }
  }

  lemma CleanSettles(w: World, r: RequestId, order: seq<MessageId>, fault: bool)
    requires Settled(w)
    ensures Settled(Exec(w, Steps(CleanUp(r, order, fault))))
  {
    if r !in w.requests && ExpiredListing(w.db.messages, w.db.now, order) {
      var end := CleanIsWhole(w, r, order, fault);
    } else {
      CleanBlocked(w, r, order, fault);
    }
  }

  lemma WholeSettles(w: World, x: Whole)
    requires Settled(w)
    ensures Settled(Exec(w, Steps(x)))
  {
    match x
    case One(op) =>
      ExecOne(w, Do(op));
      PerformRequests(w, op);
    case Claim(r, req) => ClaimSettles(w, r, req);
    case Sweep(r, order) => SweepSettles(w, r, order);
    case TakeBack(r, m, allowed) => RetractSettles(w, r, m, allowed);
    case CleanUp(r, order, fault) => CleanSettles(w, r, order, fault);
  }

  lemma {:induction false} AllSettled(xs: seq<Whole>)
    ensures Settled(Exec(START, Flatten(xs)))
  {
    if xs != [] {
      AllSettled(xs[..|xs| - 1]);
      WholeSettles(Exec(START, Flatten(xs[..|xs| - 1])), xs[|xs| - 1]);
      ExecAppend(START, Flatten(xs[..|xs| - 1]), Steps(xs[|xs| - 1]));
    }
  }
}
