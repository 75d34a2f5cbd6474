/** The message half of the store as a mutable object. Every method is one request and is proved
 *  against the specification functions of module Tables, about which the other modules prove what
 *  the protocol promises. */
module Store {
  import opened Common
  import opened Tables
  import opened Paging
  import Claims
  import opened Protocol

  datatype CleanupRun = Failed | Completed(archived: nat, purged: nat, purgedAudit: int)

  // ---------- listings ----------

  /** SELECT ... ORDER BY created_at ASC LIMIT, over the rows the WHERE clause selects. */
  method TakeOldest(ms: MessageTable, rows: set<MessageId>, limit: nat) returns (page: seq<MessageId>)
    requires rows <= ms.Keys
    ensures IsPage(ms, rows, limit, page)
  {
    page := [];
    var left := rows;
    while |page| < limit && left != {}
      invariant left <= rows && |left| + |page| == |rows| && |page| <= limit
      invariant forall i :: 0 <= i < |page| ==> page[i] in rows && page[i] !in left
      invariant forall m :: m in rows && m !in left ==> m in page
      invariant forall i, j :: 0 <= i < j < |page| ==> page[i] != page[j] && ms[page[i]].createdAt <= ms[page[j]].createdAt
      invariant forall i, m :: 0 <= i < |page| && m in left ==> ms[page[i]].createdAt <= ms[m].createdAt
      decreases |left|
    {
      var best := OldestOf(ms, left, map m | m in left :: ms[m].createdAt);
      page := page + [best];
      left := left - {best};
    }
  }

  /** A row with the least key. */
  method OldestOf(ms: MessageTable, rows: set<MessageId>, key: map<MessageId, Time>) returns (best: MessageId)
    requires rows != {} && rows <= key.Keys
    ensures best in rows && forall m :: m in rows ==> key[best] <= key[m]
  {
    best :| best in rows;
    var left := rows - {best};
    while left != {}
      invariant left <= rows && best in rows
      invariant forall m :: m in rows && m !in left ==> key[best] <= key[m]
    {
      var m :| m in left;
      if key[m] < key[best] { best := m; }
      left := left - {m};
    }
  }

  /** SELECT * FROM messages WHERE expires_at <= now ORDER BY expires_at ASC. */
  method ListExpired(ms: MessageTable, now: Time) returns (order: seq<MessageId>)
    ensures ExpiredListing(ms, now, order) && |order| == |Outlived(ms, now)|
  {
    order := [];
    var rows := Outlived(ms, now);
    var left := rows;
    while left != {}
      invariant left <= rows && |left| + |order| == |rows|
      invariant forall i :: 0 <= i < |order| ==> order[i] in rows && order[i] !in left
      invariant forall m :: m in rows && m !in left ==> m in order
      invariant forall i, j :: 0 <= i < j < |order| ==> order[i] != order[j] && ms[order[i]].expiresAt <= ms[order[j]].expiresAt
      invariant forall i, m :: 0 <= i < |order| && m in left ==> ms[order[i]].expiresAt <= ms[m].expiresAt
    {
      var best := OldestOf(ms, left, map m | m in left :: ms[m].expiresAt);
      order := order + [best];
      left := left - {best};
    }
  }

  /** The rowid SQLite gives the next row: one above the largest in use. */
  method PickRowid(ms: MessageTable) returns (rowid: nat)
    ensures rowid == NextRowid(ms)
  {
    rowid := 0;
    var left := ms.Keys;
    ghost var rowids := set m | m in ms :: ms[m].rowid;
    while left != {}
      invariant left <= ms.Keys
      invariant forall m :: m in ms && m !in left ==> ms[m].rowid <= rowid
      invariant rowid == 0 || rowid in rowids
    {
      var m :| m in left;
      if ms[m].rowid > rowid { rowid := ms[m].rowid; }
      left := left - {m};
    }
    forall r | r in rowids ensures r <= rowid { }
    rowid := rowid + 1;
  }

  // ---------- retention purge, channel by channel ----------

  lemma {:induction false} KeepAgree(audit: seq<Archived>, p: Archived -> bool, q: Archived -> bool)
    requires forall a :: a in audit ==> p(a) == q(a)
    ensures Keep(audit, p) == Keep(audit, q)
  {
    if audit != [] {
      assert audit[|audit| - 1] in audit;
      forall a | a in audit[..|audit| - 1] ensures a in audit { }
      KeepAgree(audit[..|audit| - 1], p, q);
    }
  }

  function Both(p: Archived -> bool, q: Archived -> bool): Archived -> bool { a => p(a) && q(a) }

  lemma {:induction false} KeepTwice(audit: seq<Archived>, p: Archived -> bool, q: Archived -> bool)
    ensures Keep(Keep(audit, p), q) == Keep(audit, Both(p, q))
  {
    if audit != [] {
      var (most, last) := (audit[..|audit| - 1], audit[|audit| - 1]);
      KeepTwice(most, p, q);
      var kept := Keep(most, p);
      if p(last) { assert (kept + [last])[..|kept + [last]| - 1] == kept; }
      assert kept + [] == kept;
    }
  }

  lemma {:induction false} KeepAll(audit: seq<Archived>, p: Archived -> bool)
    requires forall a :: a in audit ==> p(a)
    ensures Keep(audit, p) == audit
  {
    if audit != [] {
      assert audit[|audit| - 1] in audit;
      forall a | a in audit[..|audit| - 1] ensures a in audit { }
      KeepAll(audit[..|audit| - 1], p);
    }
  }

  function ArchivedChannels(audit: seq<Archived>): set<ChannelId> { set a | a in audit :: a.channel }

  /** Rows of the channels not yet visited stay, as do retained rows. */
  function Spares(channels: map<ChannelId, Channel>, now: Time, left: set<ChannelId>): Archived -> bool {
    (a: Archived) => a.channel in left || Retained(channels, now, a)
  }

  /** What DELETE ... WHERE live_channel_id = c AND archived_at <= cutoff leaves. */
  function NotStale(c: ChannelId, cutoff: Time): Archived -> bool {
    (a: Archived) => !(a.channel == c && a.archivedAt <= cutoff)
  }

  /** Deleting channel by channel what each channel no longer retains is one filter over the archive. */
  method PurgeByChannel(channels: map<ChannelId, Channel>, audit: seq<Archived>, now: Time) returns (kept: seq<Archived>)
    ensures kept == PurgeAudit(channels, audit, now)
  {
    kept := audit;
    var left := ArchivedChannels(audit);
    KeepAll(audit, Spares(channels, now, left));
    while left != {}
      invariant kept == Keep(audit, Spares(channels, now, left))
    {
      var c :| c in left;
      var cutoff := now - Retention(channels, c) * DAY;
      var (before, drop) := (Spares(channels, now, left), NotStale(c, cutoff));
      KeepTwice(audit, before, drop);
      KeepAgree(audit, Both(before, drop), Spares(channels, now, left - {c}));
      kept := Keep(kept, drop);
      left := left - {c};
    }
    KeepAgree(audit, Spares(channels, now, left), a => Retained(channels, now, a));
  }

  // ---------- the store ----------

  class MessageStore {
    var channels: map<ChannelId, Channel>
    var messages: MessageTable
    var audit: seq<Archived>
    var runs: seq<CleanupRun>
    var now: Time
    var nextChannel: ChannelId
    var nextMessage: MessageId
    var nextToken: Token

    /** The tables and counters as one value; `runs`, the log of cleanup runs, is kept apart. */
    ghost function View(): Db
      reads this
    {
      Db(channels, messages, audit, now, nextChannel, nextMessage, nextToken)
    }

    /** No lease token is on two rows or yet to be issued, and every row's channel exists. */
    ghost predicate Valid()
      reads this
    {
      Claims.TokensBelow(View()) && (forall m :: m in messages ==> messages[m].channel in channels)
    }

    constructor (start: Time)
      ensures Valid() && View() == EMPTY.(now := start) && runs == []
    {
      channels, messages, audit, runs, now := map[], map[], [], [], start;
      nextChannel, nextMessage, nextToken := 0, 0, 0;
    }

    /** The guarded UPDATE of both claim requests, with its event. */
    method WriteClaim(req: ClaimRequest, prev: Option<Actor>, at: Time) returns (reply: Reply)
      requires Valid()
      modifies this`messages, this`nextToken
      ensures Valid() && (View(), reply) == ClaimUpdate(old(View()), req, prev, at)
    {
      if req.m !in messages || !(messages[req.m].holder.None? || LeaseExpired(messages[req.m], at)) {
        return Refused(409, "already_claimed");
      }
      var token, leaseEnd := None, None;
      reply := Claimed;
      if req.lease.Some? {
        token, leaseEnd := Some(nextToken), Some(at + req.lease.value * SECOND);
        reply := Leased(nextToken, at + req.lease.value * SECOND);
        nextToken := nextToken + 1;
      }
      var row := messages[req.m];
      var event := Event(ClaimEvent, req.actor, at, if prev.Some? && prev.value != req.actor then prev else None);
      messages := messages[req.m := row.(holder := Some(req.actor), claimedAt := Some(at), claimedKey := Some(req.key),
                                         token := token, leaseEnd := leaseEnd, log := row.log + [event])];
    }

    method ClaimMessage(m: MessageId, actor: Actor, key: Key, allowed: bool) returns (reply: Reply)
      requires Valid()
      modifies this`messages, this`nextToken
      ensures Valid() && (View(), reply) == ClaimWhole(old(View()), ClaimRequest(m, actor, key, allowed, None))
    {
      if m !in messages { return Refused(404, "message_not_found"); }
      var seen := messages[m];
      if seen.expiresAt <= now { return Refused(410, "message_expired"); }
      if seen.channel !in channels { return Refused(404, "channel_not_found"); }
      if channels[seen.channel].mode != Claimable { return Refused(409, "channel_not_claimable"); }
      if !allowed { return Refused(403, "channel_access_denied"); }
      if seen.holder.Some? {
        var acked := Acked(messages[m].log);
        if seen.holder.value == actor { return AlreadyHeld(acked); }
        if acked || !LeaseExpired(seen, now) { return Refused(409, "already_claimed"); }
      }
      reply := WriteClaim(ClaimRequest(m, actor, key, allowed, None), seen.holder, now);
    }

    method ClaimWithLease(m: MessageId, actor: Actor, key: Key, allowed: bool, seconds: int) returns (reply: Reply)
      requires Valid()
      modifies this`messages, this`nextToken
      ensures Valid() && (View(), reply) == ClaimWhole(old(View()), ClaimRequest(m, actor, key, allowed, Some(seconds)))
    {
      if !(30 <= seconds <= 3600) { return Refused(422, "invalid_lease_seconds"); }
      if m !in messages { return Refused(404, "message_not_found"); }
      var seen := messages[m];
      if seen.expiresAt <= now { return Refused(410, "message_expired"); }
      if seen.channel !in channels { return Refused(404, "channel_not_found"); }
      if channels[seen.channel].mode != Claimable { return Refused(409, "channel_not_claimable"); }
      if !allowed { return Refused(403, "channel_access_denied"); }
      if seen.holder.Some? {
        if Acked(messages[m].log) || !LeaseExpired(seen, now) { return Refused(409, "already_claimed"); }
      }
      reply := WriteClaim(ClaimRequest(m, actor, key, allowed, Some(seconds)), seen.holder, now);
    }

    method HeartbeatLease(token: Token, seconds: int) returns (reply: Reply)
      requires Valid()
      modifies this`messages
      ensures Valid() && (View(), reply) == Heartbeat(old(View()), token, seconds)
    {
      if !(30 <= seconds <= 3600) { return Refused(422, "invalid_lease_seconds"); }
      if !exists m :: m in messages && messages[m].token == Some(token) { return Refused(410, "lease_expired"); }
      var m :| m in messages && messages[m].token == Some(token);
      assert HasToken(messages[m], token);
      if messages[m].leaseEnd.None? || messages[m].leaseEnd.value <= now { return Refused(410, "lease_expired"); }
      var until := now + seconds * SECOND;
      messages := map x | x in messages ::
        if HasToken(messages[x], token) then messages[x].(leaseEnd := Some(until)) else messages[x];
      reply := Extended(until);
    }

    method ReleaseMessage(m: MessageId, actor: Actor, allowed: bool) returns (reply: Reply)
      requires Valid()
      modifies this`messages
      ensures Valid() && (View(), reply) == Release(old(View()), m, actor, allowed)
    {
      if m !in messages { return Refused(404, "message_not_found"); }
      var row := messages[m];
      if row.expiresAt <= now { return Refused(410, "message_expired"); }
      if row.channel !in channels { return Refused(404, "channel_not_found"); }
      if channels[row.channel].mode != Claimable { return Refused(409, "channel_not_claimable"); }
      if !allowed { return Refused(403, "channel_access_denied"); }
      if row.holder.None? { return Refused(409, "not_claimed"); }
      if row.holder.value != actor { return Refused(403, "forbidden"); }
      messages := messages[m := row.(holder := None, claimedAt := None, claimedKey := None)];
      reply := Released;
    }

    method AckMessage(m: MessageId, actor: Actor, allowed: bool) returns (reply: Reply)
      requires Valid()
      modifies this`messages
      ensures Valid() && (View(), reply) == Ack(old(View()), m, actor, allowed)
    {
      if m !in messages { return Refused(404, "message_not_found"); }
      var row := messages[m];
      if row.expiresAt <= now { return Refused(410, "message_expired"); }
      if row.channel !in channels { return Refused(404, "channel_not_found"); }
      if !allowed { return Refused(403, "channel_access_denied"); }
      if exists e :: e in row.log && e.kind == AckEvent && e.actor == actor { return Acknowledged(false); }
      messages := messages[m := row.(log := row.log + [Event(AckEvent, actor, now, None)])];
      reply := Acknowledged(true);
    }

    /** The sweep: select the expired, held, unacked rows, then update them one by one, re-checking the lease. */
    method ReclaimExpiredLeases() returns (reclaimed: nat, ghost order: seq<MessageId>)
      requires Valid()
      modifies this`messages
      ensures Valid() && SweepListing(old(messages), now, order)
      ensures View() == SweepRows(old(View()), order, now) && reclaimed == |SweepSelect(old(messages), now)|
    {
      var cutoff := now;
      var rows := SweepSelect(messages, cutoff);
      var left := rows;
      ghost var was := View();
      reclaimed, order := 0, [];
      while left != {}
        invariant left <= rows && reclaimed + |left| == |rows|
        invariant forall m :: m in left ==> m in messages && messages[m] == was.messages[m]
        invariant forall m :: m in order <==> m in rows && m !in left
        invariant forall i, j :: 0 <= i < j < |order| ==> order[i] != order[j]
        invariant View() == SweepRows(was, order, cutoff)
      {
        var m :| m in left;
        SweepSnoc(was, order, m, cutoff);
        if m in messages && LeaseExpired(messages[m], cutoff) {
          messages := messages[m := messages[m].(holder := None, claimedAt := None, claimedKey := None,
                                                 token := None, leaseEnd := None)];
          reclaimed := reclaimed + 1;
        }
        order := order + [m];
        left := left - {m};
      }
      SweepKeepsValid(was, order, cutoff);
    }

    method CreateMessage(post: PostRequest) returns (reply: Reply)
      requires Valid()
      modifies this`messages, this`nextMessage
      ensures Valid() && (View(), reply) == Post(old(View()), post)
    {
      var c := post.channel;
      if c !in channels { return Refused(404, "channel_not_found"); }
      if !post.allowed { return Refused(403, "channel_access_denied"); }
      var channel := channels[c];
      if channel.paused { return Refused(503, "channel_paused"); }
      if channel.maxWrites.Some? && |Recent(messages, c, now - 60 * SECOND)| >= channel.maxWrites.value {
        return Refused(429, "channel_write_rate_exceeded");
      }
      if !post.schemaOk { return Refused(422, "metadata_validation_failed"); }
      var rowid := PickRowid(messages);
      messages := messages[nextMessage := Message(c, rowid, post.content, now, now + channel.ttlSeconds * SECOND,
                                                  None, None, None, None, None, [])];
      messages := Trim(messages, c, channel.maxMessages);
      reply := Posted(nextMessage);
      nextMessage := nextMessage + 1;
    }

    /** The transaction of a retract whose read returned `seen`. */
    method ArchiveAndDelete(m: MessageId, seen: Message)
      requires Valid()
      modifies this`messages, this`audit, this`runs
      ensures Valid() && View() == RetractUpdate(old(View()), m, seen) && runs == old(runs) + [Completed(1, 1, 0)]
    {
      audit := audit + [Archive(m, seen, [], now)];
      messages := map x | x in messages && x != m :: messages[x];
      runs := runs + [Completed(1, 1, 0)];
    }

    method DeleteMessage(m: MessageId, allowed: bool) returns (reply: Reply)
      requires Valid()
      modifies this`messages, this`audit, this`runs
      ensures Valid() && (View(), reply) == Retract(old(View()), m, allowed)
      ensures runs == if reply.Retracted? then old(runs) + [Completed(1, 1, 0)] else old(runs)
    {
      if m !in messages { return Refused(404, "message_not_found"); }
      var seen := messages[m];
      if seen.channel !in channels { return Refused(404, "channel_not_found"); }
      if !allowed { return Refused(403, "channel_access_denied"); }
      if seen.holder.Some? { return Refused(409, "message_claimed"); }
      ArchiveAndDelete(m, seen);
      reply := Retracted;
    }

    method DeleteChannel(c: ChannelId, owner: bool) returns (reply: Reply)
      requires Valid()
      modifies this`channels, this`messages
      ensures Valid() && (View(), reply) == Tables.DeleteChannel(old(View()), c, owner)
    {
      if c !in channels { return Refused(404, "channel_not_found"); }
      if !owner { return Refused(403, "forbidden"); }
      channels := channels - {c};
      messages := Without(messages, InChannel(messages, c));
      reply := ChannelDeleted;
    }

    /** The loop of INSERTs, from the listed rows. It stops at a row whose channel is missing, or at the fault. */
    method ArchiveRows(rows: seq<MessageId>, seen: MessageTable, fault: Option<nat>) returns (ok: bool)
      requires forall m :: m in rows ==> m in seen
      modifies this`audit
      ensures ok <==> CanArchive(old(View()), rows, seen) && (fault.None? || fault.value >= |rows|)
      ensures ok ==> audit == old(audit) + ArchiveAll(seen, messages, rows, now) && |audit| == |old(audit)| + |rows|
    {
      for i := 0 to |rows|
        invariant audit == old(audit) + ArchiveAll(seen, messages, rows[..i], now) && |audit| == |old(audit)| + i
        invariant forall j :: 0 <= j < i ==> seen[rows[j]].channel in channels
        invariant fault.Some? ==> i <= fault.value
      {
        var m := rows[i];
        assert m in rows;
        if seen[m].channel !in channels || fault == Some(i) { return false; }
        audit := audit + [Archive(m, seen[m], if m in messages then messages[m].log else [], now)];
        assert rows[..i + 1][..i] == rows[..i];
      }
      assert rows[..|rows|] == rows;
      ok := true;
    }

    /** UPDATE messages SET claimed_by_actor_id = NULL, ... for expired, unacked leases. */
    method ReleaseLeases(cutoff: Time)
      modifies this`messages
      ensures messages == ReleasedLeases(old(messages), cutoff)
    {
      messages := map m | m in messages ::
        if messages[m].token.Some? && LeaseExpired(messages[m], cutoff) && !Acked(messages[m].log)
        then messages[m].(holder := None, claimedAt := None, token := None, leaseEnd := None) else messages[m];
    }

    /** DELETE FROM messages WHERE expires_at <= cutoff, and its row count. */
    method PurgeExpired(cutoff: Time) returns (purged: nat)
      modifies this`messages
      ensures messages == Without(old(messages), Outlived(old(messages), cutoff)) && purged == |Outlived(old(messages), cutoff)|
    {
      var gone := set m | m in messages && messages[m].expiresAt <= cutoff;
      assert gone == Outlived(old(messages), cutoff);
      purged := |gone|;
      messages := map m | m in messages && m !in gone :: messages[m];
    }

    /** The statements of the transaction, up to the fault. */
    method CleanupStatements(cutoff: Time, order: seq<MessageId>, seen: MessageTable, fault: Option<nat>)
      returns (ok: bool, purged: nat, purgedAudit: int)
      requires forall m :: m in order ==> m in seen
      modifies this`messages, this`audit
      ensures ok <==> CanArchive(old(View()), order, seen) && (fault.None? || fault.value >= |order| + 4)
      ensures ok ==>
                && View() == CleanupUpdate(old(View()), cutoff, order, seen)
                && purged == |Outlived(old(messages), cutoff)| && purgedAudit == |old(audit)| + |order| - |audit|
    {
      purged, purgedAudit := 0, 0;
      ok := ArchiveRows(order, seen, fault);
      if !ok { return; }
      if fault == Some(|order|) { return false, 0, 0; }
      ReleaseLeases(cutoff);
      if fault == Some(|order| + 1) { return false, 0, 0; }
      ReleaseThenPurge(old(messages), cutoff);
      purged := PurgeExpired(cutoff);
      if fault == Some(|order| + 2) { return false, 0, 0; }
      purgedAudit := |audit|;
      audit := PurgeByChannel(channels, audit, now);
      purgedAudit := purgedAudit - |audit|;
      ok := fault != Some(|order| + 3);
    }

    /** The transaction of a cleanup that listed `order`, with the rows `seen`, at `cutoff`. The fault strikes while
     *  archiving row i, or before the release (|order|), the delete, the purge of the archive, or the commit. Whatever
     *  raises, the transaction is rolled back and the run recorded as failed. */
    method CleanupTransaction(cutoff: Time, order: seq<MessageId>, seen: MessageTable, fault: Option<nat>) returns (ok: bool)
      requires Valid() && forall m :: m in order ==> m in seen
      modifies this`messages, this`audit, this`runs
      ensures Valid()
      ensures ok <==> CanArchive(old(View()), order, seen) && (fault.None? || fault.value >= |order| + 4)
      ensures !ok ==> View() == old(View()) && runs == old(runs) + [Failed]
      ensures ok ==>
                && View() == CleanupUpdate(old(View()), cutoff, order, seen)
                && runs == old(runs) + [Completed(|order|, |Outlived(old(messages), cutoff)|, |old(audit)| + |order| - |audit|)]
    {
      var (savedMessages, savedAudit) := (messages, audit);
      CleanupKeepsTokens(View(), cutoff, order, seen);
      var purged, purgedAudit;
      ok, purged, purgedAudit := CleanupStatements(cutoff, order, seen, fault);
      if ok {
        runs := runs + [Completed(|order|, purged, purgedAudit)];
      } else {
        messages, audit := savedMessages, savedAudit;
        runs := runs + [Failed];
      }
    }

    /** One cleanup run with nothing between its listing and its transaction: as many rows archived as deleted. */
    method ArchiveAndCleanup(fault: Option<nat>) returns (ok: bool, ghost order: seq<MessageId>)
      requires Valid()
      modifies this`messages, this`audit, this`runs
      ensures Valid() && ExpiredListing(old(messages), now, order) && |order| == |Outlived(old(messages), now)|
      ensures ok <==> fault.None? || fault.value >= |order| + 4
      ensures !ok ==> View() == old(View()) && runs == old(runs) + [Failed]
      ensures ok ==>
                && View() == Cleanup(old(View()), order)
                && runs == old(runs) + [Completed(|order|, |order|, |old(audit)| + |order| - |audit|)]
    {
      var rows := ListExpired(messages, now);
      order := rows;
      forall m | m in rows ensures m in messages { assert m in Outlived(messages, now); }
      ok := CleanupTransaction(now, rows, messages, fault);
    }

    /** GET /channels/{id}/messages without waiting. */
    method ListMessages(c: ChannelId, since: Option<Time>, limit: Option<int>, f: Filter, allowed: bool) returns (listing: Listing)
      ensures
        var size := if limit.None? then 50 else limit.value;
        match listing
        case Rejected(status, _) =>
          if size < 1 || size > 100 then status == 422
          else if c !in channels then status == 404
          else !allowed && status == 403
        case Found(data, cursor) =>
          && 1 <= size <= 100 && c in channels && allowed
          && IsPage(messages, Matching(messages, c, now, since, f), size, data)
          && cursor == NextCursor(messages, data, since)
    {
      var size := if limit.None? then 50 else limit.value;
      if size < 1 || size > 100 { return Rejected(422, "invalid_limit"); }
      if c !in channels { return Rejected(404, "channel_not_found"); }
      if !allowed { return Rejected(403, "channel_access_denied"); }
      var data := TakeOldest(messages, Matching(messages, c, now, since, f), size);
      listing := Found(data, if data != [] then Some(messages[data[|data| - 1]].createdAt) else since);
    }
  }

  datatype Listing = Rejected(status: int, error: string) | Found(data: seq<MessageId>, cursor: Option<Time>)

  datatype Handed = Refusal(reply: Reply) | Handed(m: Option<MessageId>)

  /** The drain verb: list up to 20 unclaimed messages, claim the first that can be claimed. */
  method TaskClaim(store: MessageStore, c: ChannelId, actor: Actor, key: Key, allowed: bool) returns (result: Handed)
    requires store.Valid()
    modifies store`messages, store`nextToken
    ensures store.Valid()
    ensures result.Refusal? <==> c !in store.channels || !allowed
    ensures result.Refusal? ==> store.View() == old(store.View()) && result.reply.Refused? && result.reply.status in {403, 404}
    ensures result.Handed? && store.channels[c].mode == Claimable
            ==> DrainStep(old(store.View()), c, actor, key, result.m, store.View())
    ensures result.Handed? && store.channels[c].mode != Claimable ==> result.m.None? && store.View() == old(store.View())
  {
    var listing := store.ListMessages(c, None, Some(20), UNCLAIMED, allowed);
    if listing.Rejected? { return Refusal(Refused(listing.status, listing.error)); }
    var page := listing.data;
    for i := 0 to |page|
      invariant store.Valid() && store.View() == old(store.View())
      invariant i > 0 ==> store.channels[c].mode != Claimable
    {
      var reply := store.ClaimMessage(page[i], actor, key, allowed);
      if reply.Claimed? { return Handed(Some(page[i])); }
      if reply.Refused? && reply.status != 409 { return Refusal(reply); }
    }
    result := Handed(None);
  }

  lemma CleanupKeepsTokens(db: Db, cutoff: Time, order: seq<MessageId>, seen: MessageTable)
    requires Claims.TokensBelow(db)
    ensures Claims.TokensBelow(CleanupUpdate(db, cutoff, order, seen))
  {
  }

  function ReleasedLeases(ms: MessageTable, cutoff: Time): MessageTable { map m | m in ms :: ClearLease(ms[m], cutoff) }

  /** Releasing first and deleting then is the cleanup's effect on the live table. */
  lemma ReleaseThenPurge(was: MessageTable, cutoff: Time)
    ensures Outlived(ReleasedLeases(was, cutoff), cutoff) == Outlived(was, cutoff)
    ensures Without(ReleasedLeases(was, cutoff), Outlived(was, cutoff)) == CleanMessages(was, cutoff)
  {
  }

  lemma {:induction false} SweepKeepsValid(db: Db, order: seq<MessageId>, cutoff: Time)
    requires Claims.TokensBelow(db) && forall m :: m in db.messages ==> db.messages[m].channel in db.channels
    ensures
      var after := SweepRows(db, order, cutoff);
      Claims.TokensBelow(after) && forall m :: m in after.messages ==> after.messages[m].channel in db.channels
    decreases |order|
  {
    if order != [] { SweepKeepsValid(SweepRow(db, order[0], cutoff), order[1..], cutoff); }
  }

  lemma {:induction false} SweepSnoc(db: Db, order: seq<MessageId>, m: MessageId, cutoff: Time)
    ensures SweepRows(db, order + [m], cutoff) == SweepRow(SweepRows(db, order, cutoff), m, cutoff)
    decreases |order|
  {
    if order == [] {
      assert [] + [m] == [m] && [m][1..] == [];
    } else {
      SweepSnoc(SweepRow(db, order[0], cutoff), order[1..], m, cutoff);
      assert (order + [m])[1..] == order[1..] + [m];
    }
  }
}
