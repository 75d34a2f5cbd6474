/** The tables the message protocol works on, and what each atomic database step does to them.
 *
 * `messages` and `audit_messages` are keyed as in SQLite; `message_events` is kept grouped by its
 * foreign key, in insertion order, in the `log` of its message, so that ON DELETE CASCADE is
 * removal of the row. Fresh identifiers (uuid4) come from counters that never go back.
 */
module Tables {
  import opened Common

  type ChannelId = nat
  type MessageId = nat
  type Token = nat
  type Actor = string
  type Key = string

  datatype Mode = Broadcast | Claimable

  datatype Channel = Channel(
    mode: Mode,
    paused: bool,
    ttlSeconds: int,
    retentionDays: int,
    maxMessages: Option<nat>,
    maxWrites: Option<nat>)

  datatype EventKind = ClaimEvent | AckEvent

  datatype Event = Event(kind: EventKind, actor: Actor, at: Time, reclaimedFrom: Option<Actor>)

  datatype Message = Message(
    channel: ChannelId,
    rowid: nat,
    content: string,
    createdAt: Time,
    expiresAt: Time,
    holder: Option<Actor>,
    claimedAt: Option<Time>,
    claimedKey: Option<Key>,
    token: Option<Token>,
    leaseEnd: Option<Time>,
    log: seq<Event>)

  datatype Archived = Archived(
    id: MessageId,
    channel: ChannelId,
    content: string,
    createdAt: Time,
    expiresAt: Time,
    holder: Option<Actor>,
    claimedAt: Option<Time>,
    log: seq<Event>,
    archivedAt: Time)

  type MessageTable = map<MessageId, Message>

  datatype Db = Db(
    channels: map<ChannelId, Channel>,
    messages: MessageTable,
    audit: seq<Archived>,
    now: Time,
    nextChannel: ChannelId,
    nextMessage: MessageId,
    nextToken: Token)

  const EMPTY: Db := Db(map[], map[], [], 0, 0, 0, 0)

  /** What a request answers. `Refused` carries the HTTP status and the error code. */
  datatype Reply =
    | Claimed
    | AlreadyHeld(acked: bool)
    | Leased(token: Token, leaseEnd: Time)
    | Extended(leaseEnd: Time)
    | Released
    | Acknowledged(first: bool)
    | Posted(id: MessageId)
    | Retracted
    | ChannelDeleted
    | Refused(status: int, error: string)

  predicate LeaseExpired(row: Message, t: Time) {
    row.leaseEnd.Some? && row.leaseEnd.value <= t
  }

  /** The WHERE clause shared by the two claim UPDATEs. */
  predicate Open(row: Message, t: Time) {
    row.holder.None? || LeaseExpired(row, t)
  }

  predicate Acked(log: seq<Event>) {
    log != [] && (log[|log| - 1].kind.AckEvent? || Acked(log[..|log| - 1]))
  }

  predicate AckedBy(log: seq<Event>, actor: Actor) {
    exists e :: e in log && e.kind.AckEvent? && e.actor == actor
  }

  // ---------- claim_message and claim_with_lease, step by step ----------

  /** `lease` is None for a plain claim. `allowed` is the outcome of the channel access check. */
  datatype ClaimRequest = ClaimRequest(m: MessageId, actor: Actor, key: Key, allowed: bool, lease: Option<int>)

  predicate LeaseSecondsOk(seconds: int) { 30 <= seconds <= 3600 }

  datatype Lookup = Row(row: Message) | Missing(reply: Reply)

  /** Fetch a message that must not have outlived its TTL. */
  function ReadLive(db: Db, m: MessageId): Lookup {
    if m !in db.messages then Missing(Refused(404, "message_not_found"))
    else if db.messages[m].expiresAt <= db.now then Missing(Refused(410, "message_expired"))
    else Row(db.messages[m])
  }

  function ClaimRead(db: Db, req: ClaimRequest): Lookup {
    if req.lease.Some? && !LeaseSecondsOk(req.lease.value)
    then Missing(Refused(422, "invalid_lease_seconds"))
    else ReadLive(db, req.m)
  }

  /** The channel must exist, be claimable and be open to the caller; None means all three hold. */
  function ClaimableChannel(db: Db, c: ChannelId, allowed: bool): Option<Reply> {
    if c !in db.channels then Some(Refused(404, "channel_not_found"))
    else if db.channels[c].mode != Claimable then Some(Refused(409, "channel_not_claimable"))
    else if !allowed then Some(Refused(403, "channel_access_denied"))
    else None
  }

  datatype Decision = Proceed(at: Time) | Answer(reply: Reply)

  /** The decision made from the row read earlier (`seen`), the current clock and the current events. */
  function ClaimDecide(db: Db, req: ClaimRequest, seen: Message): Decision {
    if seen.holder.None? then Proceed(db.now)
    else
      var acked := req.m in db.messages && Acked(db.messages[req.m].log);
      if req.lease.None? && seen.holder.value == req.actor then
        if req.m in db.messages then Answer(AlreadyHeld(acked))
        else Answer(Refused(404, "message_not_found"))
      else if acked || !LeaseExpired(seen, db.now) then Answer(Refused(409, "already_claimed"))
      else Proceed(db.now)
  }

  function ClaimNote(actor: Actor, prev: Option<Actor>): Option<Actor> {
    if prev.Some? && prev.value != actor then prev else None
  }

  function GrantRow(db: Db, req: ClaimRequest, prev: Option<Actor>, at: Time): Message
    requires req.m in db.messages
  {
    var row := db.messages[req.m];
    row.(holder := Some(req.actor), claimedAt := Some(at), claimedKey := Some(req.key),
         token := if req.lease.None? then None else Some(db.nextToken),
         leaseEnd := if req.lease.None? then None else Some(at + req.lease.value * SECOND),
         log := row.log + [Event(ClaimEvent, req.actor, at, ClaimNote(req.actor, prev))])
  }

  /** The guarded UPDATE and its event, one transaction. `prev` and `at` were captured earlier. */
  function ClaimUpdate(db: Db, req: ClaimRequest, prev: Option<Actor>, at: Time): (Db, Reply) {
    if req.m in db.messages && Open(db.messages[req.m], at) then
      var row := GrantRow(db, req, prev, at);
      if req.lease.None? then (db.(messages := db.messages[req.m := row]), Claimed)
      else (db.(messages := db.messages[req.m := row], nextToken := db.nextToken + 1),
            Leased(db.nextToken, at + req.lease.value * SECOND))
    else (db, Refused(409, "already_claimed"))
  }

  /** The whole request with nothing in between. */
  function ClaimWhole(db: Db, req: ClaimRequest): (Db, Reply) {
    match ClaimRead(db, req)
    case Missing(reply) => (db, reply)
    case Row(seen) =>
      match ClaimableChannel(db, seen.channel, req.allowed)
      case Some(reply) => (db, reply)
      case None =>
        match ClaimDecide(db, req, seen)
        case Answer(reply) => (db, reply)
        case Proceed(at) => ClaimUpdate(db, req, seen.holder, at)
  }

  // ---------- heartbeat, release, ack: one atomic request each ----------

  predicate HasToken(row: Message, token: Token) { row.token == Some(token) }

  /** No two rows carry the same lease token. */
  ghost predicate TokensDistinct(ms: MessageTable) {
    forall a, b :: a in ms && b in ms && ms[a].token.Some? && ms[a].token == ms[b].token ==> a == b
  }

  /** The row a lease token selects. */
  ghost function TokenRow(ms: MessageTable, token: Token): Option<MessageId> {
    if exists m :: m in ms && HasToken(ms[m], token) then
      var m :| m in ms && HasToken(ms[m], token);
      Some(m)
    else None
  }

  ghost function Heartbeat(db: Db, token: Token, seconds: int): (Db, Reply) {
    if !LeaseSecondsOk(seconds) then (db, Refused(422, "invalid_lease_seconds"))
    else
      var found := TokenRow(db.messages, token);
      if found.None? then (db, Refused(410, "lease_expired"))
      else
        var row := db.messages[found.value];
        if row.leaseEnd.None? || row.leaseEnd.value <= db.now then (db, Refused(410, "lease_expired"))
        else
          var until := db.now + seconds * SECOND;
          (db.(messages := map m | m in db.messages ::
                 if HasToken(db.messages[m], token) then db.messages[m].(leaseEnd := Some(until)) else db.messages[m]),
           Extended(until))
  }

  function Release(db: Db, m: MessageId, actor: Actor, allowed: bool): (Db, Reply) {
    match ReadLive(db, m)
    case Missing(reply) => (db, reply)
    case Row(row) =>
      match ClaimableChannel(db, row.channel, allowed)
      case Some(reply) => (db, reply)
      case None =>
        if row.holder.None? then (db, Refused(409, "not_claimed"))
        else if row.holder.value != actor then (db, Refused(403, "forbidden"))
        else (db.(messages := db.messages[m := row.(holder := None, claimedAt := None, claimedKey := None)]), Released)
  }

  function Ack(db: Db, m: MessageId, actor: Actor, allowed: bool): (Db, Reply) {
    match ReadLive(db, m)
    case Missing(reply) => (db, reply)
    case Row(row) =>
      if row.channel !in db.channels then (db, Refused(404, "channel_not_found"))
      else if !allowed then (db, Refused(403, "channel_access_denied"))
      else if AckedBy(row.log, actor) then (db, Acknowledged(false))
      else (db.(messages := db.messages[m := row.(log := row.log + [Event(AckEvent, actor, db.now, None)])]),
            Acknowledged(true))
  }

  // ---------- the expired-lease sweep ----------

  predicate SweepSelects(row: Message, cutoff: Time) {
    LeaseExpired(row, cutoff) && row.holder.Some? && !Acked(row.log)
  }

  /** The rows the sweep's SELECT returns. */
  function SweepSelect(ms: MessageTable, cutoff: Time): set<MessageId> {
    set m | m in ms && SweepSelects(ms[m], cutoff)
  }

  function Unclaim(row: Message): Message {
    row.(holder := None, claimedAt := None, claimedKey := None, token := None, leaseEnd := None)
  }

  /** The guard of the sweep's per-row UPDATE; it re-checks the lease only. */
  predicate SweepHits(ms: MessageTable, m: MessageId, cutoff: Time) {
    m in ms && LeaseExpired(ms[m], cutoff)
  }

  function SweepRow(db: Db, m: MessageId, cutoff: Time): Db {
    if SweepHits(db.messages, m, cutoff)
    then db.(messages := db.messages[m := Unclaim(db.messages[m])])
    else db
  }

  function SweepRows(db: Db, todo: seq<MessageId>, cutoff: Time): Db
    decreases |todo|
  {
    if todo == [] then db else SweepRows(SweepRow(db, todo[0], cutoff), todo[1..], cutoff)
  }

  // ---------- posting, with the write throttle and the ring buffer ----------

  ghost function NextRowid(ms: MessageTable): nat {
    Top(set m | m in ms :: ms[m].rowid) + 1
  }

  function Recent(ms: MessageTable, c: ChannelId, since: Time): set<MessageId> {
    set m | m in ms && ms[m].channel == c && ms[m].createdAt > since
  }

  function Newer(s: set<MessageId>, m: MessageId): set<MessageId> { set k | k in s && k > m }

  /** The `n` largest identifiers, that is, the `n` messages inserted last. */
  function Newest(s: set<MessageId>, n: nat): set<MessageId> { set m | m in s && |Newer(s, m)| < n }

  /** The rows of a channel with a rowid above `r`. */
  function Above(ms: MessageTable, c: ChannelId, r: nat): set<MessageId> {
    set m | m in ms && ms[m].channel == c && ms[m].rowid > r
  }

  /** Whether the ring buffer's DELETE spares the row: it is among the `cap` top rowids of its channel. */
  predicate Spared(ms: MessageTable, c: ChannelId, cap: Option<nat>, m: MessageId)
    requires m in ms
  {
    cap.None? || ms[m].channel != c || |Above(ms, c, ms[m].rowid)| < cap.value
  }

  function Trim(ms: MessageTable, c: ChannelId, cap: Option<nat>): MessageTable {
    map m | m in ms && Spared(ms, c, cap, m) :: ms[m]
  }

  /** `schemaOk` is the verdict of module Schema on the message's metadata. */
  datatype PostRequest = PostRequest(channel: ChannelId, content: string, allowed: bool, schemaOk: bool)

  function PostRefusal(db: Db, req: PostRequest): Option<Reply> {
    if req.channel !in db.channels then Some(Refused(404, "channel_not_found"))
    else if !req.allowed then Some(Refused(403, "channel_access_denied"))
    else if db.channels[req.channel].paused then Some(Refused(503, "channel_paused"))
    else if db.channels[req.channel].maxWrites.Some?
            && |Recent(db.messages, req.channel, db.now - 60 * SECOND)| >= db.channels[req.channel].maxWrites.value
    then Some(Refused(429, "channel_write_rate_exceeded"))
    else if !req.schemaOk then Some(Refused(422, "metadata_validation_failed"))
    else None
  }

  function FreshRow(db: Db, req: PostRequest, rowid: nat): Message
    requires req.channel in db.channels
  {
    Message(req.channel, rowid, req.content, db.now, db.now + db.channels[req.channel].ttlSeconds * SECOND,
            None, None, None, None, None, [])
  }

  ghost function Inserted(db: Db, req: PostRequest): MessageTable
    requires req.channel in db.channels
  {
    db.messages[db.nextMessage := FreshRow(db, req, NextRowid(db.messages))]
  }

  ghost function Post(db: Db, req: PostRequest): (Db, Reply) {
    match PostRefusal(db, req)
    case Some(reply) => (db, reply)
    case None =>
      (db.(messages := Trim(Inserted(db, req), req.channel, db.channels[req.channel].maxMessages),
           nextMessage := db.nextMessage + 1),
       Posted(db.nextMessage))
  }

  // ---------- retract, channel delete, archive-and-cleanup ----------

  function Archive(m: MessageId, row: Message, log: seq<Event>, at: Time): Archived {
    Archived(m, row.channel, row.content, row.createdAt, row.expiresAt, row.holder, row.claimedAt, log, at)
  }

  function Without(ms: MessageTable, gone: set<MessageId>): MessageTable {
    map m | m in ms && m !in gone :: ms[m]
  }

  function RetractRead(db: Db, m: MessageId): Lookup {
    if m in db.messages then Row(db.messages[m]) else Missing(Refused(404, "message_not_found"))
  }

  /** The checks of a retract, made on the row read earlier; None lets it go ahead. */
  function RetractRefusal(db: Db, seen: Message, allowed: bool): Option<Reply> {
    if seen.channel !in db.channels then Some(Refused(404, "channel_not_found"))
    else if !allowed then Some(Refused(403, "channel_access_denied"))
    else if seen.holder.Some? then Some(Refused(409, "message_claimed"))
    else None
  }

  /** The transaction of a retract: archive the row as it was read, without its events, and DELETE by identifier alone. */
  function RetractUpdate(db: Db, m: MessageId, seen: Message): Db {
    db.(messages := Without(db.messages, {m}), audit := db.audit + [Archive(m, seen, [], db.now)])
  }

  /** The whole request with nothing in between. */
  function Retract(db: Db, m: MessageId, allowed: bool): (Db, Reply) {
    match RetractRead(db, m)
    case Missing(reply) => (db, reply)
    case Row(seen) =>
      match RetractRefusal(db, seen, allowed)
      case Some(reply) => (db, reply)
      case None => (RetractUpdate(db, m, seen), Retracted)
  }

  function InChannel(ms: MessageTable, c: ChannelId): set<MessageId> {
    set m | m in ms && ms[m].channel == c
  }

  function DeleteChannel(db: Db, c: ChannelId, owner: bool): (Db, Reply) {
    if c !in db.channels then (db, Refused(404, "channel_not_found"))
    else if !owner then (db, Refused(403, "forbidden"))
    else (db.(channels := db.channels - {c}, messages := Without(db.messages, InChannel(db.messages, c))), ChannelDeleted)
  }

  function Outlived(ms: MessageTable, now: Time): set<MessageId> {
    set m | m in ms && ms[m].expiresAt <= now
  }

  /** A listing of the expired rows, as the cleanup's ORDER BY expires_at may return it. */
  ghost predicate ExpiredListing(ms: MessageTable, now: Time, order: seq<MessageId>) {
    && (forall m :: m in order <==> m in Outlived(ms, now))
    && (forall i, j :: 0 <= i < j < |order| ==> order[i] != order[j])
    && (forall i, j :: 0 <= i < j < |order| && order[i] in ms && order[j] in ms
                       ==> ms[order[i]].expiresAt <= ms[order[j]].expiresAt)
  }

  function LogIn(ms: MessageTable, m: MessageId): seq<Event> { if m in ms then ms[m].log else [] }

  /** The rows a cleanup archives: each as it was listed, with the events it has when it is archived. */
  function ArchiveAll(seen: MessageTable, live: MessageTable, order: seq<MessageId>, at: Time): seq<Archived> {
    if order == [] then []
    else
      var last := order[|order| - 1];
      ArchiveAll(seen, live, order[..|order| - 1], at)
      + (if last in seen then [Archive(last, seen[last], LogIn(live, last), at)] else [])
  }

  /** Which rows the cleanup's bulk lease release matches. */
  predicate CleanupClears(row: Message, now: Time) {
    row.token.Some? && LeaseExpired(row, now) && !Acked(row.log)
  }

  /** The bulk release; unlike the sweep it leaves `claimedKey` alone. */
  function ClearLease(row: Message, now: Time): Message {
    if CleanupClears(row, now) then row.(holder := None, claimedAt := None, token := None, leaseEnd := None) else row
  }

  function Retention(channels: map<ChannelId, Channel>, c: ChannelId): int {
    if c in channels then channels[c].retentionDays else 7
  }

  /** An archived row still inside its channel's retention window. */
  predicate Retained(channels: map<ChannelId, Channel>, now: Time, a: Archived) {
    a.archivedAt > now - Retention(channels, a.channel) * DAY
  }

  function Keep(audit: seq<Archived>, keep: Archived -> bool): seq<Archived> {
    if audit == [] then []
    else
      var last := audit[|audit| - 1];
      Keep(audit[..|audit| - 1], keep) + (if keep(last) then [last] else [])
  }

  function PurgeAudit(channels: map<ChannelId, Channel>, audit: seq<Archived>, now: Time): seq<Archived> {
    Keep(audit, a => Retained(channels, now, a))
  }

  function CleanMessages(ms: MessageTable, cutoff: Time): MessageTable {
    map m | m in ms && ms[m].expiresAt > cutoff :: ClearLease(ms[m], cutoff)
  }

  /** Archiving a listed row fails when its channel is gone. */
  predicate CanArchive(db: Db, order: seq<MessageId>, seen: MessageTable) {
    forall m :: m in order && m in seen ==> seen[m].channel in db.channels
  }

  /** The transaction of a cleanup that listed `order`, with the rows `seen`, at `cutoff`. */
  function CleanupUpdate(db: Db, cutoff: Time, order: seq<MessageId>, seen: MessageTable): Db {
    db.(messages := CleanMessages(db.messages, cutoff),
        audit := PurgeAudit(db.channels, db.audit + ArchiveAll(seen, db.messages, order, db.now), db.now))
  }

  /** One committed cleanup with nothing in between. */
  function Cleanup(db: Db, order: seq<MessageId>): Db {
    CleanupUpdate(db, db.now, order, db.messages)
  }
}
