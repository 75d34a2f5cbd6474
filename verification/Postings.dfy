/** The message itself: when a post is accepted and what is stored of it, that this is what every later row and archive
 *  row carries, and what a retract, a channel delete and a cleanup take away and keep. Told from rows and the clock. */
module Postings {
  import opened Common
  import opened Tables
  import opened Protocol
  import opened Lifecycle
  import Archiving
  import AckSafety
  import Requests

  // ---------- post ----------

  /** What the throttle counts: the channel's messages of the last 60 seconds that are still there. */
  function LastMinute(db: Db, c: ChannelId): set<MessageId> {
    set m | m in db.messages && db.messages[m].channel == c && db.now - db.messages[m].createdAt < 60 * SECOND
  }

  predicate Throttled(db: Db, c: ChannelId)
    requires c in db.channels
  {
    match db.channels[c].maxWrites
    case None => false
    case Some(limit) => |LastMinute(db, c)| >= limit
  }

  /** The checks before the one on metadata. */
  predicate Admissible(db: Db, post: PostRequest) {
    post.channel in db.channels && post.allowed && !db.channels[post.channel].paused && !Throttled(db, post.channel)
  }

  /** Exactly when a post is accepted, and what each refusal means; a refused post changes nothing. */
  lemma PostAnswers(db: Db, post: PostRequest)
    ensures
      var (after, reply) := Post(db, post);
      var c := post.channel;
      && (reply == Posted(db.nextMessage) <==> Admissible(db, post) && post.schemaOk)
      && (reply == Refused(404, "channel_not_found") <==> c !in db.channels)
      && (reply == Refused(403, "channel_access_denied") <==> c in db.channels && !post.allowed)
      && (reply == Refused(503, "channel_paused") <==> c in db.channels && post.allowed && db.channels[c].paused)
      && (reply == Refused(429, "channel_write_rate_exceeded")
          <==> c in db.channels && post.allowed && !db.channels[c].paused && Throttled(db, c))
      && (reply == Refused(422, "metadata_validation_failed") <==> Admissible(db, post) && !post.schemaOk)
      && (reply.Posted? || (reply.Refused? && after == db))
  {
    if post.channel in db.channels {
      assert Recent(db.messages, post.channel, db.now - 60 * SECOND) == LastMinute(db, post.channel);
    }
  }

  /** The row is what was posted: nobody's yet, to live from now for the channel's time. */
  predicate IsPost(row: Message, db: Db, post: PostRequest) {
    && post.channel in db.channels
    && row.content == post.content && row.channel == post.channel
    && row.createdAt == db.now && row.expiresAt == db.now + db.channels[post.channel].ttlSeconds * SECOND
    && row.holder == None && row.claimedAt == None && row.claimedKey == None
    && row.token == None && row.leaseEnd == None && row.log == []
  }

  lemma NewRow(db: Db, post: PostRequest)
    requires Ordered(db) && Post(db, post).1.Posted? && db.channels[post.channel].maxMessages != Some(0)
    ensures
      var after := Post(db, post).0;
      && after == db.(messages := after.messages, nextMessage := db.nextMessage + 1)
      && db.nextMessage in after.messages && IsPost(after.messages[db.nextMessage], db, post)
      && after.messages[db.nextMessage].rowid == NextRowid(db.messages)
  {
    match db.channels[post.channel].maxMessages
    case Some(n) => RingStep(db, post, n);
    case None =>
  }

  lemma OldRow(db: Db, post: PostRequest, m: MessageId)
    requires Ordered(db) && Post(db, post).1.Posted? && m in db.messages
    ensures db.messages[m].rowid < NextRowid(db.messages)
    ensures db.messages[m].channel != post.channel || db.channels[post.channel].maxMessages == None ==> m in Post(db, post).0.messages
  {
    PostTouchesNothingElse(db, post, m);
    InsertOrdered(db, post);
    assert Inserted(db, post)[m].rowid < Inserted(db, post)[db.nextMessage].rowid;
  }

  /** What an accepted post leaves: one new row, above all others, which is the post; the other rows unedited, all of
   *  them unless the channel has a ring buffer, and those of other channels in any case. */
  lemma PostLeaves(run: seq<Label>, post: PostRequest)
    requires var db := Exec(START, run).db; Post(db, post).1.Posted? && db.channels[post.channel].maxMessages != Some(0)
    ensures
      var db := Exec(START, run).db;
      var after := Post(db, post).0;
      && after == db.(messages := after.messages, nextMessage := db.nextMessage + 1)
      && db.nextMessage !in db.messages && db.nextMessage in after.messages && IsPost(after.messages[db.nextMessage], db, post)
      && (forall m :: m in after.messages && m != db.nextMessage ==>
            && m in db.messages && after.messages[m] == db.messages[m]
            && db.messages[m].rowid < after.messages[db.nextMessage].rowid)
      && (forall m :: m in db.messages && (db.messages[m].channel != post.channel || db.channels[post.channel].maxMessages == None)
                      ==> m in after.messages)
  {
    var db := Exec(START, run).db;
    RunOrdered(run);
    NewRow(db, post);
    forall m | m in db.messages { OldRow(db, post, m); }
    forall m | m != db.nextMessage { PostTouchesNothingElse(db, post, m); }
  }

  lemma EntryStep(w: World, l: Label, m: MessageId)
    requires Tracked(w, m) && m in PostsOf(w.history)
    ensures m in PostsOf(Next(w, l).history) && PostsOf(Next(w, l).history)[m] == PostsOf(w.history)[m]
  {
    Archiving.NextPosts(w, l);
  }

  /** A post in the history stays as it was entered. */
  lemma {:induction false} EntryStays(run: seq<Label>, more: seq<Label>, m: MessageId)
    requires m in PostsOf(Exec(START, run).history)
    ensures m in PostsOf(Exec(START, run + more).history)
    ensures PostsOf(Exec(START, run + more).history)[m] == PostsOf(Exec(START, run).history)[m]
    decreases |more|
  {
    if more == [] {
      assert run + more == run;
    } else {
      var (most, l) := (more[..|more| - 1], more[|more| - 1]);
      assert run + more == run + most + [l];
      ExecAppend(START, run + most, [l]);
      ExecOne(Exec(START, run + most), l);
      EntryStays(run, most, m);
      Lifecycle.Reachable(run + most);
      EntryStep(Exec(START, run + most), l, m);
    }
  }

  /** Whatever happens after a post was accepted, the history, the live row and every archive row of its message carry
   *  the content, the channel and the times of that very request. */
  lemma PostKept(run: seq<Label>, post: PostRequest, more: seq<Label>)
    requires Post(Exec(START, run).db, post).1.Posted?
    ensures
      var (db, end) := (Exec(START, run).db, Exec(START, run + [Do(PostMessage(post))] + more));
      var (m, until) := (db.nextMessage, db.now + db.channels[post.channel].ttlSeconds * SECOND);
      && m in PostsOf(end.history) && IsPost(PostsOf(end.history)[m], db, post)
      && (m in end.db.messages ==>
            var row := end.db.messages[m];
            row.content == post.content && row.channel == post.channel && row.createdAt == db.now && row.expiresAt == until)
      && (forall a :: a in end.db.audit && a.id == m ==>
            a.content == post.content && a.channel == post.channel && a.createdAt == db.now && a.expiresAt == until)
  {
    var (w, l) := (Exec(START, run), Do(PostMessage(post)));
    ExecAppend(START, run, [l]);
    ExecOne(w, l);
    Archiving.NextPosts(w, l);
    EntryStays(run + [l], more, w.db.nextMessage);
    Lifecycle.Reachable(run + [l] + more);
    assert Tracked(Exec(START, run + [l] + more), w.db.nextMessage);
  }

  /** And every message there has ever been was posted by one request of the run. */
  lemma {:induction false} PostedBySomeone(run: seq<Label>, m: MessageId) returns (i: nat)
    requires m < Exec(START, run).db.nextMessage
    ensures i < |run| && run[i].Do? && run[i].op.PostMessage?
    ensures Exec(START, run[..i]).db.nextMessage == m && Post(Exec(START, run[..i]).db, run[i].op.post).1 == Posted(m)
  {
    var last := |run| - 1;
    var (w, l) := (Exec(START, run[..last]), run[last]);
    if m < w.db.nextMessage {
      i := PostedBySomeone(run[..last], m);
      assert run[..last][..i] == run[..i];
    } else {
      i := last;
      OnlyPostsNumber(w, l);
    }
  }

  lemma OnlyPostsNumber(w: World, l: Label)
    requires Next(w, l).db.nextMessage > w.db.nextMessage
    ensures l.Do? && l.op.PostMessage? && Post(w.db, l.op.post).1 == Posted(w.db.nextMessage)
    ensures Next(w, l).db.nextMessage == w.db.nextMessage + 1
  {
    if !(l.Do? && l.op.PostMessage?) { NextShrinks(w, l); }
  }

  // ---------- retract and channel delete ----------

  /** An uninterrupted retract takes exactly an unclaimed message, whatever its age; it archives the row as it stood,
   *  with no events, and removes that row alone. */
  lemma RetractAnswers(w: World, r: RequestId, m: MessageId, allowed: bool) returns (end: World, reply: Reply)
    requires r !in w.requests
    ensures end == Exec(w, Steps(TakeBack(r, m, allowed))) && Pending(end, r) == Some(Finished(reply))
    ensures reply == Refused(404, "message_not_found") <==> m !in w.db.messages
    ensures reply == Refused(404, "channel_not_found") <==> m in w.db.messages && w.db.messages[m].channel !in w.db.channels
    ensures reply == Refused(403, "channel_access_denied")
            <==> m in w.db.messages && w.db.messages[m].channel in w.db.channels && !allowed
    ensures reply == Refused(409, "message_claimed")
            <==> m in w.db.messages && w.db.messages[m].channel in w.db.channels && allowed && w.db.messages[m].holder != None
    ensures reply == Retracted
            <==> m in w.db.messages && w.db.messages[m].channel in w.db.channels && allowed && w.db.messages[m].holder == None
    ensures reply != Retracted ==> end.db == w.db
    ensures reply == Retracted ==>
              var row := w.db.messages[m];
              end.db == w.db.(messages := w.db.messages - {m},
                              audit := w.db.audit + [Archived(m, row.channel, row.content, row.createdAt, row.expiresAt, None,
                                                              row.claimedAt, [], w.db.now)])
  {
    RetractIsWhole(w, r, m, allowed);
    end, reply := Exec(w, Steps(TakeBack(r, m, allowed))), Retract(w.db, m, allowed).1;
    assert Without(w.db.messages, {m}) == w.db.messages - {m};
  }

  /** The owner's delete takes the channel and exactly its messages; nobody else's changes anything. */
  lemma ChannelDeleteAnswers(db: Db, c: ChannelId, owner: bool)
    ensures
      var (after, reply) := DeleteChannel(db, c, owner);
      && (reply == ChannelDeleted <==> c in db.channels && owner)
      && (reply == Refused(404, "channel_not_found") <==> c !in db.channels)
      && (reply == Refused(403, "forbidden") <==> c in db.channels && !owner)
      && (reply != ChannelDeleted ==> after == db)
      && (reply == ChannelDeleted ==>
            && after == db.(channels := after.channels, messages := after.messages)
            && (forall x :: x in after.channels <==> x in db.channels && x != c)
            && (forall x :: x in after.channels ==> after.channels[x] == db.channels[x])
            && (forall m :: m in after.messages <==> m in db.messages && db.messages[m].channel != c)
            && (forall m :: m in after.messages ==> after.messages[m] == db.messages[m]))
  {
  }

  // ---------- cleanup ----------

  /** Never acknowledged, with a lease that has run out. */
  predicate Lapsed(row: Message, now: Time) {
    row.token.Some? && row.leaseEnd.Some? && row.leaseEnd.value <= now && !Requests.HasAck(row.log)
  }

  /** What a cleanup leaves of a message that it does not delete. */
  lemma CleanedRow(row: Message, now: Time)
    ensures ClearLease(row, now) == if Lapsed(row, now) then row.(holder := None, claimedAt := None, token := None, leaseEnd := None) else row
  {
    Requests.AckedIff(row.log);
  }

  /** An uninterrupted, committed cleanup on the live tables: exactly the expired messages go, an unacknowledged message
   *  whose lease has run out is free again, and every other row is as it was. */
  lemma CleanupLive(run: seq<Label>, r: RequestId, order: seq<MessageId>) returns (end: World)
    requires var w := Exec(START, run); r !in w.requests && ExpiredListing(w.db.messages, w.db.now, order)
    ensures end == Exec(START, run + Steps(CleanUp(r, order, false)))
    ensures
      var db := Exec(START, run).db;
      && end.db == db.(messages := end.db.messages, audit := end.db.audit)
      && end.db.audit == Cleanup(db, order).audit
      && (forall m :: m in end.db.messages <==> m in db.messages && db.messages[m].expiresAt > db.now)
      && (forall m :: m in end.db.messages ==>
            var was := db.messages[m];
            end.db.messages[m] == if Lapsed(was, db.now)
                                  then was.(holder := None, claimedAt := None, token := None, leaseEnd := None) else was)
  {
    var w := Exec(START, run);
    AckSafety.RunGood(START, run);
    end := CleanIsWhole(w, r, order, false);
    ExecAppend(START, run, Steps(CleanUp(r, order, false)));
    forall m | m in order ensures m in w.db.messages { assert m in Outlived(w.db.messages, w.db.now); }
    assert CanArchive(w.db, order, w.db.messages);
    forall m | m in end.db.messages { CleanedRow(w.db.messages[m], w.db.now); }
  }

  /** How long the archive keeps the rows of a channel; 7 days when the channel is gone. */
  predicate Kept(db: Db, a: Archived) {
    var days := if a.channel in db.channels then db.channels[a.channel].retentionDays else 7;
    db.now - a.archivedAt < days * 86_400 * SECOND
  }

  /** The archive row of a message that a cleanup finds expired. */
  predicate ArchivesRow(db: Db, a: Archived) {
    && a.id in db.messages && db.messages[a.id].expiresAt <= db.now
    && var row := db.messages[a.id];
       a == Archived(a.id, row.channel, row.content, row.createdAt, row.expiresAt, row.holder, row.claimedAt, row.log, db.now)
  }

  /** The rows a cleanup writes. */
  lemma WritesArchiveRows(db: Db, order: seq<MessageId>, a: Archived)
    requires ExpiredListing(db.messages, db.now, order)
    ensures a in ArchiveAll(db.messages, db.messages, order, db.now) <==> ArchivesRow(db, a)
  {
    var rows := ArchiveAll(db.messages, db.messages, order, db.now);
    forall m | m in order ensures m in db.messages { assert m in Outlived(db.messages, db.now); }
    RowsListed(db.messages, db.messages, order, db.now, a.id);
    if ArchivesRow(db, a) {
      assert a.id in Outlived(db.messages, db.now);
      RowPresent(rows, a.id);
    }
    if a in rows { assert a.id in Outlived(db.messages, db.now); }
  }

  lemma ArchiveAfter(db: Db, order: seq<MessageId>, a: Archived)
    requires ExpiredListing(db.messages, db.now, order)
    ensures a in Cleanup(db, order).audit <==> (a in db.audit || ArchivesRow(db, a)) && Kept(db, a)
  {
    WritesArchiveRows(db, order, a);
    KeepIn(db.audit + ArchiveAll(db.messages, db.messages, order, db.now), x => Retained(db.channels, db.now, x));
    assert Retained(db.channels, db.now, a) <==> Kept(db, a);
  }

  /** And on the archive: it then holds exactly the rows it held and one for each expired message, with all its events,
   *  of those whose retention has not passed. */
  lemma CleanupArchive(run: seq<Label>, r: RequestId, order: seq<MessageId>, a: Archived) returns (end: World)
    requires var w := Exec(START, run); r !in w.requests && ExpiredListing(w.db.messages, w.db.now, order)
    ensures end == Exec(START, run + Steps(CleanUp(r, order, false)))
    ensures
      var db := Exec(START, run).db;
      a in end.db.audit <==> (a in db.audit || ArchivesRow(db, a)) && Kept(db, a)
  {
    end := CleanupLive(run, r, order);
    ArchiveAfter(Exec(START, run).db, order, a);
  }
}
