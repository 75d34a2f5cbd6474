/** What becomes of posted messages over a whole run: the ring buffer, and where every message ends up. */
module Lifecycle {
  import opened Common
  import opened Tables
  import opened Protocol

  // ---------- the ring buffer ----------

  /** Rowids follow insertion order among live rows, even though freed top rowids are used again. */
  ghost predicate Ordered(db: Db) {
    && (forall m :: m in db.messages ==> m < db.nextMessage)
    && (forall a, b :: a in db.messages && b in db.messages && a < b ==> db.messages[a].rowid < db.messages[b].rowid)
  }

  lemma InsertOrdered(db: Db, post: PostRequest)
    requires Ordered(db) && post.channel in db.channels
    ensures Ordered(db.(messages := Inserted(db, post), nextMessage := db.nextMessage + 1))
  {
    var rowids := set m | m in db.messages :: db.messages[m].rowid;
    forall m | m in db.messages ensures db.messages[m].rowid < NextRowid(db.messages) {
      assert db.messages[m].rowid in rowids;
    }
  }

  /** Fewer of the same rows. */
  ghost predicate Shrinks(was: Db, db: Db) {
    && db.nextMessage == was.nextMessage && db.messages.Keys <= was.messages.Keys
    && (forall m :: m in db.messages ==> SamePost(db.messages[m], was.messages[m]))
  }

  lemma PerformShrinks(w: World, op: Op)
    requires !op.PostMessage? && !op.Pulse? && !op.GiveBack? && !op.Acknowledge?
    ensures Shrinks(w.db, Perform(w, op).db)
  {
  }

  lemma RemovalShrinks(w: World, l: Label)
    requires Removing(l)
    ensures Shrinks(w.db, Next(w, l).db)
  {
  }

  lemma NextShrinks(w: World, l: Label)
    requires !(l.Do? && l.op.PostMessage?)
    ensures Shrinks(w.db, Next(w, l).db)
  {
    if Removing(l) { RemovalShrinks(w, l); }
    else if !l.Do? { RequestsQuiet(w, l); }
    else if l.op.Pulse? || l.op.GiveBack? || l.op.Acknowledge? { ClaimOpsQuiet(w, l.op); }
    else { PerformShrinks(w, l.op); }
  }

  lemma NextOrdered(w: World, l: Label)
    requires Ordered(w.db)
    ensures Ordered(Next(w, l).db)
  {
    if l.Do? && l.op.PostMessage? {
      if l.op.post.channel in w.db.channels { InsertOrdered(w.db, l.op.post); }
    } else {
      NextShrinks(w, l);
    }
  }

  lemma {:induction false} RunOrdered(run: seq<Label>)
    ensures Ordered(Exec(START, run).db)
  {
    if run != [] {
      RunOrdered(run[..|run| - 1]);
      NextOrdered(Exec(START, run[..|run| - 1]), run[|run| - 1]);
    }
  }

  lemma NewestStep(s: set<MessageId>, n: nat, top: MessageId)
    requires n > 0 && top in s && forall m :: m in s ==> m <= top
    ensures |Newest(s, n)| == |Newest(s - {top}, n - 1)| + 1 && |s - {top}| == |s| - 1
  {
    var rest := s - {top};
    assert Newer(s, top) == {};
    forall m | m in rest ensures |Newer(s, m)| == |Newer(rest, m)| + 1 {
      assert Newer(s, m) == Newer(rest, m) + {top};
    }
    assert Newest(s, n) == Newest(rest, n - 1) + {top};
  }

  lemma Highest(s: set<MessageId>) returns (top: MessageId)
    requires s != {}
    ensures top in s && forall m :: m in s ==> m <= top
  {
    top := Top(s);
  }

  /** `Newest(s, n)` has min(n, |s|) elements. */
  lemma {:induction false} NewestSize(s: set<MessageId>, n: nat)
    ensures |Newest(s, n)| == if n < |s| then n else |s|
    decreases n
  {
    if n == 0 || s == {} {
      assert Newest(s, n) == {};
    } else {
      var top := Highest(s);
      NewestStep(s, n, top);
      NewestSize(s - {top}, n - 1);
    }
  }

  /** What `Newest` leaves out is older than what it keeps. */
  lemma NewestAbove(s: set<MessageId>, n: nat, k: MessageId, d: MessageId)
    requires k in Newest(s, n) && d in s - Newest(s, n)
    ensures d < k
  {
    if k < d { SubsetSize(Newer(s, d), Newer(s, k)); }
  }

  /** By rowid or by identifier, the same rows are newer. */
  lemma AboveIsNewer(ms: MessageTable, c: ChannelId, m: MessageId)
    requires m in ms && ms[m].channel == c
    requires forall a, b :: a in ms && b in ms && a < b ==> ms[a].rowid < ms[b].rowid
    ensures Above(ms, c, ms[m].rowid) == Newer(InChannel(ms, c), m)
  {
    forall k ensures k in Above(ms, c, ms[m].rowid) <==> k in Newer(InChannel(ms, c), m) {
      if k in ms && k < m { assert ms[k].rowid < ms[m].rowid; }
    }
  }

  /** The ring buffer's DELETE leaves the newest rows of the channel and touches no other row. */
  lemma TrimKeepsNewest(db: Db, post: PostRequest, n: nat)
    requires Ordered(db) && post.channel in db.channels
    ensures
      var before := Inserted(db, post);
      InChannel(Trim(before, post.channel, Some(n)), post.channel) == Newest(InChannel(before, post.channel), n)
  {
    InsertOrdered(db, post);
    TrimNewest(Inserted(db, post), post.channel, n);
  }

  lemma TrimNewest(ms: MessageTable, c: ChannelId, n: nat)
    requires forall a, b :: a in ms && b in ms && a < b ==> ms[a].rowid < ms[b].rowid
    ensures InChannel(Trim(ms, c, Some(n)), c) == Newest(InChannel(ms, c), n)
  {
    forall m ensures m in InChannel(Trim(ms, c, Some(n)), c) <==> m in Newest(InChannel(ms, c), n) {
      if m in ms && ms[m].channel == c { AboveIsNewer(ms, c, m); }
    }
  }

  ghost predicate RingKeeps(db: Db, c: ChannelId, n: nat, after: MessageTable) {
    var (was, kept) := (InChannel(db.messages, c) + {db.nextMessage}, InChannel(after, c));
    && kept <= was && |kept| == (if n < |was| then n else |was|) && db.nextMessage in kept
    && (forall k, d :: k in kept && d in was - kept ==> d < k)
  }

  lemma PostTouchesNothingElse(db: Db, post: PostRequest, m: MessageId)
    requires Post(db, post).1.Posted? && m != db.nextMessage
    ensures
      var after := Post(db, post).0.messages;
      && (m in after ==> m in db.messages && after[m] == db.messages[m])
      && (m in db.messages && db.messages[m].channel != post.channel ==> m in after)
  {
  }

  /** After every accepted post to a channel with a cap, the channel holds exactly the newest
   *  min(cap, count) of its messages, unedited, the new one among them; other channels are as before. */
  lemma RingBuffer(run: seq<Label>, post: PostRequest, n: nat)
    requires
      var db := Exec(START, run).db;
      Post(db, post).1.Posted? && db.channels[post.channel].maxMessages == Some(n) && n >= 1
    ensures
      var db := Exec(START, run).db;
      var after := Post(db, post).0.messages;
      && RingKeeps(db, post.channel, n, after)
      && (forall m :: m in after && m != db.nextMessage ==> m in db.messages && after[m] == db.messages[m])
      && (forall m :: m in db.messages && db.messages[m].channel != post.channel ==> m in after)
  {
    RunOrdered(run);
    var db := Exec(START, run).db;
    var after := Post(db, post).0.messages;
    assert db.nextMessage !in db.messages;
    forall m | m in after && m != db.nextMessage ensures m in db.messages && after[m] == db.messages[m] {
      PostTouchesNothingElse(db, post, m);
    }
    forall m | m in db.messages && db.messages[m].channel != post.channel ensures m in after {
      PostTouchesNothingElse(db, post, m);
    }
    RingStep(db, post, n);
  }

  lemma RingStep(db: Db, post: PostRequest, n: nat)
    requires Ordered(db) && Post(db, post).1.Posted? && db.channels[post.channel].maxMessages == Some(n) && n >= 1
    ensures RingKeeps(db, post.channel, n, Post(db, post).0.messages)
  {
    var c := post.channel;
    TrimKeepsNewest(db, post, n);
    var was := InChannel(Inserted(db, post), c);
    assert was == InChannel(db.messages, c) + {db.nextMessage};
    NewestSize(was, n);
    assert Newer(was, db.nextMessage) == {};
    forall k, d | k in Newest(was, n) && d in was - Newest(was, n) ensures d < k { NewestAbove(was, n, k, d); }
  }

  // ---------- the life of one message, replayed from the history alone ----------

  type Posts = map<MessageId, Message>

  function AddPost(posts: Posts, e: What): Posts {
    if e.Appeared? then posts[e.m := e.post] else posts
  }

  /** Every message ever posted, as it was inserted. */
  function PostsOf(h: seq<Entry>): Posts {
    if h == [] then map[] else AddPost(PostsOf(h[..|h| - 1]), h[|h| - 1].what)
  }

  /** How often a message left the table by the ring buffer, with its channel, or by the DELETE of a retract or cleanup;
   *  how many archive rows were written for it; how many of them when it had already left (`strays`); how many such
   *  DELETEs wrote none (`lost`); how many of its archive rows were purged. */
  datatype Life = Life(trimmed: nat, dropped: nat, taken: nat, rows: nat, strays: nat, lost: nat, purged: nat)

  const UNTOUCHED: Life := Life(0, 0, 0, 0, 0, 0, 0)

  function One(b: bool): nat { if b then 1 else 0 }

  /** The archive rows of a message. */
  function RowsOf(audit: seq<Archived>, m: MessageId): nat {
    if audit == [] then 0 else RowsOf(audit[..|audit| - 1], m) + One(audit[|audit| - 1].id == m)
  }

  /** `k` archive rows are written, `deleted` tells whether the row was found and deleted with them. */
  function Take(f: Life, deleted: bool, k: nat): Life {
    f.(taken := f.taken + One(deleted), rows := f.rows + k,
       strays := f.strays + if deleted then (if k > 0 then k - 1 else 0) else k,
       lost := f.lost + One(deleted && k == 0))
  }

  function Live(f: Life, e: What, m: MessageId): Life {
    match e
    case Appeared(_, _, trimmed) => f.(trimmed := f.trimmed + One(m in trimmed))
    case Dropped(ms) => f.(dropped := f.dropped + One(m in ms))
    case Withdrawn(row, removed) => Take(f, m in removed, One(row.id == m))
    case Cleaned(_, _, _, removed, rows, purged) =>
      Take(f, m in removed, RowsOf(rows, m)).(purged := f.purged + RowsOf(purged, m))
    case _ => f
  }

  ghost function LifeOf(h: seq<Entry>, m: MessageId): Life {
    if h == [] then UNTOUCHED else Live(LifeOf(h[..|h| - 1], m), h[|h| - 1].what, m)
  }

  lemma LifeSnoc(h: seq<Entry>, e: Entry, m: MessageId)
    ensures LifeOf(h + [e], m) == Live(LifeOf(h, m), e.what, m)
    ensures PostsOf(h + [e]) == AddPost(PostsOf(h), e.what)
  {
    assert (h + [e])[..|h + [e]| - 1] == h;
  }

  lemma QuietLife(w: World, next: World, m: MessageId)
    requires Quiet(w, next)
    ensures LifeOf(next.history, m) == LifeOf(w.history, m) && PostsOf(next.history) == PostsOf(w.history)
  {
    if next.history != w.history { LifeSnoc(w.history, next.history[|w.history|], m); }
  }

  // ---------- counting archive rows ----------

  lemma {:induction false} RowsAppend(a: seq<Archived>, b: seq<Archived>, m: MessageId)
    ensures RowsOf(a + b, m) == RowsOf(a, m) + RowsOf(b, m)
  {
    if b == [] {
      assert a + b == a;
    } else {
      assert (a + b)[..|a + b| - 1] == a + b[..|b| - 1];
      RowsAppend(a, b[..|b| - 1], m);
    }
  }

  /** Every archive row passes a test or fails it. */
  lemma {:induction false} RowsSplit(audit: seq<Archived>, keep: Archived -> bool, drop: Archived -> bool, m: MessageId)
    requires forall a :: a in audit ==> keep(a) == !drop(a)
    ensures RowsOf(Keep(audit, keep), m) + RowsOf(Keep(audit, drop), m) == RowsOf(audit, m)
    ensures |Keep(audit, keep)| + |Keep(audit, drop)| == |audit|
  {
    if audit != [] {
      var (most, last) := (audit[..|audit| - 1], audit[|audit| - 1]);
      assert last in audit;
      forall a | a in most ensures a in audit { }
      RowsSplit(most, keep, drop, m);
      RowsAppend(Keep(most, keep), if keep(last) then [last] else [], m);
      RowsAppend(Keep(most, drop), if drop(last) then [last] else [], m);
      assert [last][..0] == [];
    }
  }

  lemma {:induction false} KeepIn(audit: seq<Archived>, keep: Archived -> bool)
    ensures forall a :: a in Keep(audit, keep) <==> a in audit && keep(a)
  {
    if audit != [] {
      var (most, last) := (audit[..|audit| - 1], audit[|audit| - 1]);
      KeepIn(most, keep);
      assert audit == most + [last];
    }
  }

  /** A cleanup writes one row for each message it listed. */
  lemma {:induction false} RowsListed(seen: MessageTable, live: MessageTable, order: seq<MessageId>, at: Time, m: MessageId)
    requires forall x :: x in order ==> x in seen
    requires forall i, j :: 0 <= i < j < |order| ==> order[i] != order[j]
    ensures RowsOf(ArchiveAll(seen, live, order, at), m) == One(m in order)
    ensures |ArchiveAll(seen, live, order, at)| == |order|
    ensures forall a :: a in ArchiveAll(seen, live, order, at) ==> a.id in order && a == Archive(a.id, seen[a.id], LogIn(live, a.id), at)
  {
    if order != [] {
      var (most, last) := (order[..|order| - 1], order[|order| - 1]);
      assert last in order && order == most + [last];
      forall x | x in most ensures x in seen { assert x in order; }
      RowsListed(seen, live, most, at, m);
      var row := [Archive(last, seen[last], LogIn(live, last), at)];
      RowsAppend(ArchiveAll(seen, live, most, at), row, m);
      assert row[..0] == [];
    }
  }

  // ---------- what the state keeps, message by message ----------

  /** The archived row is the post, unedited. */
  predicate Faithful(a: Archived, post: Message) {
    a.channel == post.channel && a.content == post.content && a.createdAt == post.createdAt && a.expiresAt == post.expiresAt
  }

  ghost predicate LifeOk(db: Db, posts: Posts, f: Life, m: MessageId) {
    && (m < db.nextMessage <==> m in posts)
    && (m !in posts ==> m !in db.messages && f == UNTOUCHED)
    && (m in posts ==> One(m in db.messages) + f.trimmed + f.dropped + f.taken == 1)
    && (m in db.messages ==> SamePost(db.messages[m], posts[m]) && f.rows == 0)
    && f.rows + f.lost == f.taken + f.strays
    && RowsOf(db.audit, m) + f.purged == f.rows
    && (forall a :: a in db.audit && a.id == m ==> m in posts && Faithful(a, posts[m]))
  }

  /** What a request in flight has read of the message is the post. */
  ghost predicate SawPost(q: Request, posts: Posts, m: MessageId) {
    match q
    case AtRetractCheck(x, seen, _) => x == m ==> m in posts && SamePost(seen, posts[m])
    case AtRetractWrite(x, seen) => x == m ==> m in posts && SamePost(seen, posts[m])
    case Cleaning(cutoff, order, rows) =>
      && (m in order <==> m in Outlived(rows, cutoff))
      && (m in rows ==> m in posts && SamePost(rows[m], posts[m]))
    case _ => true
  }

  ghost predicate ListsOnce(q: Request) {
    q.Cleaning? ==> (forall i, j :: 0 <= i < j < |q.order| ==> q.order[i] != q.order[j])
                    && (forall m :: m in q.order ==> m in q.rows)
  }

  ghost predicate Tracked(w: World, m: MessageId) {
    && LifeOk(w.db, PostsOf(w.history), LifeOf(w.history, m), m)
    && (forall r :: r in w.requests ==> SawPost(w.requests[r], PostsOf(w.history), m))
  }

  ghost predicate Sound(w: World) {
    && Ordered(w.db)
    && (forall r :: r in w.requests ==> ListsOnce(w.requests[r]))
  }

  // ---------- one step keeps it ----------

  lemma PostLife(db: Db, posts: Posts, f: Life, post: PostRequest, m: MessageId)
    requires LifeOk(db, posts, f, m) && Ordered(db) && Post(db, post).1.Posted?
    ensures LifeOk(Post(db, post).0, AddPost(posts, Posting(db, post)), Live(f, Posting(db, post), m), m)
  {
    var cap := db.channels[post.channel].maxMessages;
    if cap.Some? { TrimKeepsNewest(db, post, cap.value); }
    var (before, after) := (Inserted(db, post), Post(db, post).0.messages);
    assert m in before && before[m].channel == post.channel <==> m in InChannel(before, post.channel);
    assert m in after && after[m].channel == post.channel <==> m in InChannel(after, post.channel);
  }

  lemma DropLife(db: Db, posts: Posts, f: Life, c: ChannelId, owner: bool, m: MessageId)
    requires LifeOk(db, posts, f, m) && DeleteChannel(db, c, owner).1.ChannelDeleted?
    ensures LifeOk(DeleteChannel(db, c, owner).0, posts, Live(f, Dropped(InChannel(db.messages, c)), m), m)
  {
  }

  lemma RetractLife(db: Db, posts: Posts, f: Life, x: MessageId, seen: Message, m: MessageId)
    requires LifeOk(db, posts, f, m) && (x == m ==> m in posts && SamePost(seen, posts[m]))
    ensures LifeOk(RetractUpdate(db, x, seen), posts, Live(f, Retraction(db, x, seen), m), m)
  {
    var row := Archive(x, seen, [], db.now);
    RowsAppend(db.audit, [row], m);
    assert [row][..0] == [];
  }

  lemma CleanAudit(db: Db, posts: Posts, f: Life, cutoff: Time, order: seq<MessageId>, seen: MessageTable, m: MessageId)
    requires LifeOk(db, posts, f, m) && SawPost(Cleaning(cutoff, order, seen), posts, m) && ListsOnce(Cleaning(cutoff, order, seen))
    ensures
      var (after, g) := (CleanupUpdate(db, cutoff, order, seen), Live(f, Summary(db, cutoff, order, seen), m));
      && RowsOf(after.audit, m) + g.purged == g.rows
      && g.rows == f.rows + One(m in order)
      && (forall a :: a in after.audit && a.id == m ==> m in posts && Faithful(a, posts[m]))
  {
    var rows := ArchiveAll(seen, db.messages, order, db.now);
    var all := db.audit + rows;
    RowsListed(seen, db.messages, order, db.now, m);
    RowsAppend(db.audit, rows, m);
    RowsSplit(all, a => Retained(db.channels, db.now, a), a => !Retained(db.channels, db.now, a), m);
    KeepIn(all, a => Retained(db.channels, db.now, a));
  }

  lemma CleanRow(db: Db, posts: Posts, cutoff: Time, seen: MessageTable, order: seq<MessageId>, m: MessageId)
    requires SawPost(Cleaning(cutoff, order, seen), posts, m) && ListsOnce(Cleaning(cutoff, order, seen))
    requires m in db.messages ==> m in posts && SamePost(db.messages[m], posts[m])
    ensures
      var after := CleanupUpdate(db, cutoff, order, seen).messages;
      && (m in after <==> m in db.messages && m !in Outlived(db.messages, cutoff))
      && (m in after ==> SamePost(after[m], posts[m]) && m !in order)
  {
  }

  lemma CleanLife(db: Db, posts: Posts, f: Life, cutoff: Time, order: seq<MessageId>, seen: MessageTable, m: MessageId)
    requires LifeOk(db, posts, f, m) && SawPost(Cleaning(cutoff, order, seen), posts, m) && ListsOnce(Cleaning(cutoff, order, seen))
    ensures LifeOk(CleanupUpdate(db, cutoff, order, seen), posts, Live(f, Summary(db, cutoff, order, seen), m), m)
  {
    CleanAudit(db, posts, f, cutoff, order, seen, m);
    RowsListed(seen, db.messages, order, db.now, m);
    CleanRow(db, posts, cutoff, seen, order, m);
  }

  /** Steps that add no post and remove none. */
  lemma QuietTracked(w: World, next: World, m: MessageId)
    requires Tracked(w, m) && Quiet(w, next)
    requires forall r :: r in next.requests ==> (r in w.requests && next.requests[r] == w.requests[r]) || NewlyRead(w.db, next.requests[r])
    ensures Tracked(next, m)
  {
    QuietLife(w, next, m);
  }

  /** What a request reads it reads from the tables, or has read before. */
  ghost predicate NewlyRead(db: Db, q: Request) {
    match q
    case AtRetractCheck(x, seen, _) => x in db.messages && seen == db.messages[x]
    case AtRetractWrite(_, _) => false
    case Cleaning(cutoff, order, rows) => rows == db.messages && ExpiredListing(rows, cutoff, order)
    case _ => true
  }

  lemma SameTables(w: World, next: World, m: MessageId)
    requires Tracked(w, m) && next.db == w.db && next.history == w.history
    requires forall r :: r in next.requests ==> (r in w.requests && next.requests[r] == w.requests[r]) || NewlyRead(w.db, next.requests[r])
    ensures Tracked(next, m)
  {
  }

  lemma OwnPace(w: World, l: Label, r: RequestId)
    requires !l.Do? && !Removing(l) && !l.RetractCheck? && r in Next(w, l).requests
    ensures (r in w.requests && Next(w, l).requests[r] == w.requests[r]) || NewlyRead(w.db, Next(w, l).requests[r])
  {
  }

  lemma ReadTracked(w: World, l: Label, m: MessageId)
    requires Tracked(w, m) && !l.Do? && !Removing(l) && !l.RetractCheck?
    ensures Tracked(Next(w, l), m)
  {
    forall r | r in Next(w, l).requests
      ensures (r in w.requests && Next(w, l).requests[r] == w.requests[r]) || NewlyRead(w.db, Next(w, l).requests[r])
    {
      OwnPace(w, l, r);
    }
    if l.ClaimWrite? || l.SweepNext? {
      WritesQuiet(w, l);
      QuietTracked(w, Next(w, l), m);
    } else {
      ReadsQuiet(w, l);
      SameTables(w, Next(w, l), m);
    }
  }

  lemma CheckTracked(w: World, r: RequestId, m: MessageId)
    requires Tracked(w, m)
    ensures Tracked(Next(w, RetractCheck(r)), m)
  {
    var next := Next(w, RetractCheck(r));
    if next != w {
      assert next.db == w.db && next.history == w.history;
      assert SawPost(w.requests[r], PostsOf(w.history), m);
    }
  }

  /** A request that has written, recorded it and is over. */
  lemma WroteTracked(w: World, next: World, r: RequestId, what: What, m: MessageId)
    requires Tracked(w, m) && !what.Appeared? && next.history == w.history + [Entry(w.db.now, what)]
    requires LifeOk(next.db, PostsOf(w.history), Live(LifeOf(w.history, m), what, m), m)
    requires r in next.requests && Over(next.requests[r])
    requires forall x :: x in next.requests && x != r ==> x in w.requests && next.requests[x] == w.requests[x]
    ensures Tracked(next, m)
  {
    LifeSnoc(w.history, Entry(w.db.now, what), m);
  }

  lemma RetractTracked(w: World, r: RequestId, m: MessageId)
    requires Tracked(w, m)
    ensures Tracked(Next(w, RetractWrite(r)), m)
  {
    if r in w.requests && w.requests[r].AtRetractWrite? {
      var (x, seen) := (w.requests[r].m, w.requests[r].seen);
      assert SawPost(w.requests[r], PostsOf(w.history), m);
      RetractLife(w.db, PostsOf(w.history), LifeOf(w.history, m), x, seen, m);
      WroteTracked(w, WriteRetract(w, r, x, seen), r, Retraction(w.db, x, seen), m);
    }
  }

  lemma CleanTracked(w: World, r: RequestId, fault: bool, m: MessageId)
    requires Tracked(w, m) && Sound(w)
    ensures Tracked(Next(w, CleanWrite(r, fault)), m)
  {
    if r in w.requests && w.requests[r].Cleaning? {
      var (cutoff, order, seen) := (w.requests[r].cutoff, w.requests[r].order, w.requests[r].rows);
      var next := WriteClean(w, r, cutoff, order, seen, fault);
      assert SawPost(w.requests[r], PostsOf(w.history), m) && ListsOnce(w.requests[r]);
      CleanWritten(w, r, cutoff, order, seen, fault);
      if fault || !CanArchive(w.db, order, seen) {
        SameTables(w, next, m);
      } else {
        CleanLife(w.db, PostsOf(w.history), LifeOf(w.history, m), cutoff, order, seen, m);
        WroteTracked(w, next, r, Summary(w.db, cutoff, order, seen), m);
      }
    }
  }

  lemma PostTracked(w: World, post: PostRequest, m: MessageId)
    requires Tracked(w, m) && Sound(w) && LifeOk(w.db, PostsOf(w.history), LifeOf(w.history, w.db.nextMessage), w.db.nextMessage)
    ensures Tracked(DoPost(w, post), m)
  {
    if Post(w.db, post).1.Posted? {
      PostLife(w.db, PostsOf(w.history), LifeOf(w.history, m), post, m);
      LifeSnoc(w.history, Entry(w.db.now, Posting(w.db, post)), m);
    }
  }

  lemma DropTracked(w: World, c: ChannelId, owner: bool, m: MessageId)
    requires Tracked(w, m)
    ensures Tracked(DoRemoveChannel(w, c, owner), m)
  {
    if DeleteChannel(w.db, c, owner).1.ChannelDeleted? {
      DropLife(w.db, PostsOf(w.history), LifeOf(w.history, m), c, owner, m);
      LifeSnoc(w.history, Entry(w.db.now, Dropped(InChannel(w.db.messages, c))), m);
    }
  }

  lemma PerformTracked(w: World, op: Op, m: MessageId)
    requires Tracked(w, m) && Sound(w) && Tracked(w, w.db.nextMessage)
    ensures Tracked(Perform(w, op), m)
  {
    PerformRequests(w, op);
    if op.Pulse? || op.GiveBack? || op.Acknowledge? {
      ClaimOpsQuiet(w, op);
      QuietTracked(w, Perform(w, op), m);
    } else if op.PostMessage? {
      PostTracked(w, op.post, m);
    } else if op.RemoveChannel? {
      DropTracked(w, op.c, op.owner, m);
    }
  }

  lemma NextTracked(w: World, l: Label, m: MessageId)
    requires Tracked(w, m) && Sound(w) && Tracked(w, w.db.nextMessage)
    ensures Tracked(Next(w, l), m)
  {
    match l
    case Do(op) => PerformTracked(w, op, m);
    case RetractCheck(r) => CheckTracked(w, r, m);
    case RetractWrite(r) => RetractTracked(w, r, m);
    case CleanWrite(r, fault) => CleanTracked(w, r, fault, m);
    case _ => ReadTracked(w, l, m);
  }

  lemma NextSound(w: World, l: Label)
    requires Sound(w)
    ensures Sound(Next(w, l))
  {
    NextOrdered(w, l);
    var next := Next(w, l);
    if l.Do? {
      PerformRequests(w, l.op);
    } else {
      forall r | r in next.requests ensures ListsOnce(next.requests[r]) {
        if r in w.requests { assert ListsOnce(w.requests[r]); }
      }
    }
  }

  /** Every reachable world accounts for every message. */
  lemma {:induction false} Reachable(run: seq<Label>)
    ensures Sound(Exec(START, run)) && forall m :: Tracked(Exec(START, run), m)
  {
    if run != [] {
      var (w, l) := (Exec(START, run[..|run| - 1]), run[|run| - 1]);
      Reachable(run[..|run| - 1]);
      NextSound(w, l);
      forall m ensures Tracked(Next(w, l), m) { NextTracked(w, l, m); }
    }
  }

  // ---------- main results, for every interleaving ----------

  /** Every message leaves the table once: it is live, or the ring buffer took it, or its channel did, or the DELETE of a
   *  retract or cleanup. What is archived of it, or was and is purged, is one row for that DELETE and one for every
   *  stray, a row written when it had already left; rows and the live message are the post, unedited. */
  lemma EveryFate(run: seq<Label>, m: MessageId)
    requires m < Exec(START, run).db.nextMessage
    ensures
      var w := Exec(START, run);
      var f := LifeOf(w.history, m);
      && One(m in w.db.messages) + f.trimmed + f.dropped + f.taken == 1
      && One(m in w.db.messages) + f.trimmed + f.dropped + RowsOf(w.db.audit, m) + f.purged + f.lost == 1 + f.strays
      && m in PostsOf(w.history)
      && (m in w.db.messages ==> SamePost(w.db.messages[m], PostsOf(w.history)[m]))
      && (forall a :: a in w.db.audit && a.id == m ==> Faithful(a, PostsOf(w.history)[m]))
  {
    Reachable(run);
    assert Tracked(Exec(START, run), m);
  }

  /** The step is the transaction of a cleanup, and it commits. */
  predicate Commits(w: World, l: Label) {
    && l.CleanWrite? && !l.fault && l.r in w.requests && w.requests[l.r].Cleaning?
    && CanArchive(w.db, w.requests[l.r].order, w.requests[l.r].rows)
  }

  lemma CommitIs(w: World, l: Label)
    requires l.CleanWrite?
    ensures
      if Commits(w, l) then
        var q := w.requests[l.r];
        && Next(w, l).db == CleanupUpdate(w.db, q.cutoff, q.order, q.rows)
        && Next(w, l).history == w.history + [Entry(w.db.now, Summary(w.db, q.cutoff, q.order, q.rows))]
      else Next(w, l).db == w.db && Next(w, l).history == w.history
  {
    if l.r in w.requests && w.requests[l.r].Cleaning? {
      var q := w.requests[l.r];
      CleanWritten(w, l.r, q.cutoff, q.order, q.rows, l.fault);
    }
  }

  /** A row leaves the archive exactly when a cleanup commits after its retention has passed. */
  lemma RetentionRules(w: World, l: Label, a: Archived)
    requires a in w.db.audit
    ensures
      var days := if a.channel in w.db.channels then w.db.channels[a.channel].retentionDays else 7;
      a in Next(w, l).db.audit <==> !Commits(w, l) || a.archivedAt > w.db.now - days * 86_400 * SECOND
  {
    if l.CleanWrite? {
      CommitIs(w, l);
      if Commits(w, l) {
        var q := w.requests[l.r];
        KeepIn(w.db.audit + ArchiveAll(q.rows, w.db.messages, q.order, w.db.now), x => Retained(w.db.channels, w.db.now, x));
      }
    } else if l.Do? {
      PerformAudit(w, l.op);
    } else if !l.RetractWrite? {
      RequestsQuiet(w, l);
    }
  }

  lemma PerformAudit(w: World, op: Op)
    ensures Perform(w, op).db.audit == w.db.audit
  {
  }

  /** What a cleanup purges was archived, then or before, as it was posted, and its retention has passed. */
  lemma PurgedRows(run: seq<Label>, l: Label, a: Archived)
    requires Commits(Exec(START, run), l)
    requires var e := Next(Exec(START, run), l).history[|Exec(START, run).history|]; e.what.Cleaned? && a in e.what.purged
    ensures
      var w := Exec(START, run);
      var e := Next(w, l).history[|w.history|].what;
      && (a in w.db.audit || a in e.rows)
      && a.archivedAt <= w.db.now - Retention(w.db.channels, a.channel) * DAY
      && a.id in PostsOf(w.history) && Faithful(a, PostsOf(w.history)[a.id])
  {
    var w := Exec(START, run);
    var q := w.requests[l.r];
    var rows := ArchiveAll(q.rows, w.db.messages, q.order, w.db.now);
    CommitIs(w, l);
    KeepIn(w.db.audit + rows, x => !Retained(w.db.channels, w.db.now, x));
    Reachable(run);
    assert Tracked(w, a.id) && SawPost(q, PostsOf(w.history), a.id) && ListsOnce(q);
    RowsListed(q.rows, w.db.messages, q.order, w.db.now, a.id);
  }

  // ---------- nothing is lost ----------

  predicate PositiveTtl(run: seq<Label>) {
    forall i :: 0 <= i < |run| && run[i].Do? && run[i].op.CreateChannel? ==> run[i].op.config.ttlSeconds >= 1
  }

  /** Whatever a cleanup in flight will delete is on its list. */
  ghost predicate Complete(w: World) {
    && (forall c :: c in w.db.channels ==> w.db.channels[c].ttlSeconds >= 1)
    && (forall r :: r in w.requests ==> CompleteList(w.db, w.requests[r]))
  }

  ghost predicate CompleteList(db: Db, q: Request) {
    q.Cleaning? ==> q.cutoff <= db.now && forall m :: m in db.messages && db.messages[m].expiresAt <= q.cutoff ==> m in q.order
  }

  lemma PostComplete(db: Db, post: PostRequest, q: Request)
    requires CompleteList(db, q) && Post(db, post).1.Posted? && db.channels[post.channel].ttlSeconds >= 1
    ensures CompleteList(Post(db, post).0, q)
  {
  }

  lemma ShrinkComplete(db: Db, after: Db, q: Request)
    requires CompleteList(db, q) && Shrinks(db, after) && db.now <= after.now
    ensures CompleteList(after, q)
  {
  }

  /** The request was in flight before the step, or is a cleanup that has just listed. */
  lemma WhoseList(w: World, l: Label, r: RequestId)
    requires r in Next(w, l).requests && Next(w, l).requests[r].Cleaning?
    ensures (r in w.requests && w.requests[r] == Next(w, l).requests[r])
            || (Next(w, l).db == w.db && ExpiredListing(w.db.messages, w.db.now, Next(w, l).requests[r].order)
                && Next(w, l).requests[r].cutoff == w.db.now)
  {
    if l.Do? { PerformRequests(w, l.op); }
  }

  lemma ClockForward(w: World, l: Label)
    ensures w.db.now <= Next(w, l).db.now
  {
    if !l.Do? && !Removing(l) { RequestsQuiet(w, l); }
  }

  lemma TtlsKept(w: World, l: Label)
    requires (forall c :: c in w.db.channels ==> w.db.channels[c].ttlSeconds >= 1) && PositiveTtl([l])
    ensures forall c :: c in Next(w, l).db.channels ==> Next(w, l).db.channels[c].ttlSeconds >= 1
  {
    assert l == [l][0];
    if !l.Do? && !Removing(l) { RequestsQuiet(w, l); }
    if l.Do? && (l.op.Pulse? || l.op.GiveBack? || l.op.Acknowledge?) { ClaimOpsQuiet(w, l.op); }
  }

  lemma NextComplete(w: World, l: Label)
    requires Complete(w) && PositiveTtl([l])
    ensures Complete(Next(w, l))
  {
    var next := Next(w, l);
    TtlsKept(w, l);
    ClockForward(w, l);
    forall r | r in next.requests ensures CompleteList(next.db, next.requests[r]) {
      var q := next.requests[r];
      if q.Cleaning? {
        WhoseList(w, l, r);
        if r in w.requests && w.requests[r] == q {
          assert CompleteList(w.db, q);
          if l.Do? && l.op.PostMessage? {
            if Post(w.db, l.op.post).1.Posted? { PostComplete(w.db, l.op.post, q); }
          } else {
            NextShrinks(w, l);
            ShrinkComplete(w.db, next.db, q);
          }
        }
      }
    }
  }

  lemma {:induction false} NextLost(w: World, l: Label, m: MessageId)
    requires Complete(w) && Sound(w) && Tracked(w, m) && LifeOf(w.history, m).lost == 0
    ensures LifeOf(Next(w, l).history, m).lost == 0
  {
    if Commits(w, l) {
      var q := w.requests[l.r];
      CommitIs(w, l);
      assert CompleteList(w.db, q) && ListsOnce(q);
      RowsListed(q.rows, w.db.messages, q.order, w.db.now, m);
      LifeSnoc(w.history, Entry(w.db.now, Summary(w.db, q.cutoff, q.order, q.rows)), m);
    } else if l.RetractWrite? {
      RetractEntry(w, l.r, m);
    } else if !l.Do? {
      if l.CleanWrite? { CommitIs(w, l); } else { RequestsQuiet(w, l); QuietLife(w, Next(w, l), m); }
    } else {
      PerformEntry(w, l.op, m);
    }
  }

  /** One-step requests neither archive nor lose. */
  lemma PerformEntry(w: World, op: Op, m: MessageId)
    ensures
      var (f, g) := (LifeOf(w.history, m), LifeOf(Perform(w, op).history, m));
      g.lost == f.lost && g.strays == f.strays && g.rows == f.rows
  {
    var next := Perform(w, op);
    if op.Pulse? || op.GiveBack? || op.Acknowledge? {
      ClaimOpsQuiet(w, op);
      QuietLife(w, next, m);
    } else if next.history != w.history {
      LifeSnoc(w.history, next.history[|w.history|], m);
    }
  }

  lemma RetractEntry(w: World, r: RequestId, m: MessageId)
    ensures
      var (f, g) := (LifeOf(w.history, m), LifeOf(Next(w, RetractWrite(r)).history, m));
      if Pending(w, r).Some? && w.requests[r].AtRetractWrite? && w.requests[r].m == m
      then g == Take(f, m in w.db.messages, 1) else g == f
  {
    if r in w.requests && w.requests[r].AtRetractWrite? {
      LifeSnoc(w.history, Entry(w.db.now, Retraction(w.db, w.requests[r].m, w.requests[r].seen)), m);
    }
  }

  lemma {:induction false} RunComplete(run: seq<Label>, m: MessageId)
    requires PositiveTtl(run)
    ensures Complete(Exec(START, run)) && LifeOf(Exec(START, run).history, m).lost == 0
  {
    if run != [] {
      var (most, l) := (run[..|run| - 1], run[|run| - 1]);
      RunComplete(most, m);
      Reachable(most);
      assert Tracked(Exec(START, most), m);
      NextComplete(Exec(START, most), l);
      NextLost(Exec(START, most), l, m);
    }
  }

  /** The row a cleanup archives for a message it listed. */
  lemma ArchivedInCleanup(db: Db, posts: Posts, cutoff: Time, order: seq<MessageId>, seen: MessageTable, m: MessageId)
    returns (a: Archived)
    requires SawPost(Cleaning(cutoff, order, seen), posts, m) && ListsOnce(Cleaning(cutoff, order, seen)) && m in order
    ensures a.id == m && a.archivedAt == db.now && a.log == LogIn(db.messages, m)
    ensures m in posts && Faithful(a, posts[m])
    ensures a in ArchiveAll(seen, db.messages, order, db.now)
    ensures a in CleanupUpdate(db, cutoff, order, seen).audit <==> Retention(db.channels, a.channel) >= 1
  {
    var rows := ArchiveAll(seen, db.messages, order, db.now);
    RowsListed(seen, db.messages, order, db.now, m);
    RowPresent(rows, m);
    a :| a in rows && a.id == m;
    KeepIn(db.audit + rows, x => Retained(db.channels, db.now, x));
    RetainedNow(db.channels, db.now, a);
  }

  lemma RetainedNow(channels: map<ChannelId, Channel>, now: Time, a: Archived)
    requires a.archivedAt == now
    ensures Retained(channels, now, a) <==> Retention(channels, a.channel) >= 1
  {
  }

  /** With a positive TTL in every channel no message is lost: whatever a cleanup deletes it archives in the same
   *  transaction, as posted and with its events, and the row stays unless its channel retains nothing. */
  lemma NothingLost(run: seq<Label>, l: Label, m: MessageId) returns (a: Archived)
    requires PositiveTtl(run) && Commits(Exec(START, run), l)
    requires m in Exec(START, run).db.messages && m !in Next(Exec(START, run), l).db.messages
    ensures
      var w := Exec(START, run);
      && a.id == m && a.archivedAt == w.db.now && a.log == w.db.messages[m].log
      && m in PostsOf(w.history) && Faithful(a, PostsOf(w.history)[m])
      && (a in Next(w, l).db.audit <==> Retention(w.db.channels, a.channel) >= 1)
  {
    var w := Exec(START, run);
    var q := w.requests[l.r];
    RunComplete(run, m);
    Reachable(run);
    assert Tracked(w, m) && CompleteList(w.db, q);
    CommitIs(w, l);
    a := ArchivedInCleanup(w.db, PostsOf(w.history), q.cutoff, q.order, q.rows, m);
  }

  lemma {:induction false} RowPresent(audit: seq<Archived>, m: MessageId)
    requires RowsOf(audit, m) > 0
    ensures exists a :: a in audit && a.id == m
  {
    var last := |audit| - 1;
    if audit[last].id == m { assert audit[last] in audit; }
    else {
      RowPresent(audit[..last], m);
      var a :| a in audit[..last] && a.id == m;
      assert a in audit;
    }
  }
}
