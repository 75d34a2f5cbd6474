/** The per-channel write throttle over whole runs. It counts surviving rows only, while the ring
 *  buffer and the cleanup remove rows; the bound on accepted posts holds nevertheless. */
module Throttle {
  import opened Common
  import opened Tables
  import opened Protocol
  import opened Lifecycle
  import Archiving
  import Claims

  const MINUTE: int := 60 * SECOND

  /** The accepted posts of a channel in the 60 seconds up to `t`. */
  function Window(posts: Posts, c: ChannelId, t: Time): set<MessageId> {
    set m | m in posts && posts[m].channel == c && t - MINUTE < posts[m].createdAt <= t
  }

  /** The limits under which the throttle is sound: a ring buffer no smaller than the limit, a TTL over a minute. */
  predicate Steady(ch: Channel, limit: nat) {
    && ch.maxWrites == Some(limit)
    && (ch.maxMessages.Some? ==> ch.maxMessages.value >= limit)
    && ch.ttlSeconds > 60
  }

  /** Posts are stamped in order, by channels that exist or existed, with their channel's TTL. */
  ghost predicate InOrder(db: Db, posts: Posts) {
    && (forall m: MessageId :: m in posts <==> m < db.nextMessage)
    && (forall m :: m in posts ==> posts[m].createdAt <= db.now && posts[m].channel < db.nextChannel)
    && (forall a, b :: a in posts && b in posts && a < b ==> posts[a].createdAt <= posts[b].createdAt)
    && (forall m :: m in posts && posts[m].channel in db.channels ==>
          posts[m].expiresAt == posts[m].createdAt + db.channels[posts[m].channel].ttlSeconds * SECOND)
  }

  ghost predicate Stamped(db: Db, posts: Posts) {
    && InOrder(db, posts)
    && (forall c :: c in db.channels ==> c < db.nextChannel)
    && (forall m :: m in db.messages ==> m in posts && SamePost(db.messages[m], posts[m]))
    && Ordered(db)
  }

  /** A post of the last minute that is no longer live has at least `limit` newer live posts in its channel. */
  ghost predicate Covered(db: Db, posts: Posts, c: ChannelId, limit: nat) {
    forall q :: q in posts && posts[q].channel == c && q !in db.messages && db.now - MINUTE < posts[q].createdAt
                ==> |Newer(InChannel(db.messages, c), q)| >= limit
  }

  ghost predicate Throttled(posts: Posts, c: ChannelId, limit: nat) {
    forall t: Time :: |Window(posts, c, t)| <= limit
  }

  /** Every recent accepted post is still counted, or the throttle refuses. */
  lemma RecentCounted(db: Db, posts: Posts, c: ChannelId, limit: nat)
    requires Stamped(db, posts) && Covered(db, posts, c, limit) && c in db.channels && Steady(db.channels[c], limit)
    requires |Recent(db.messages, c, db.now - MINUTE)| < limit
    ensures |Window(posts, c, db.now)| < limit
  {
    var recent := Recent(db.messages, c, db.now - MINUTE);
    forall q | q in Window(posts, c, db.now) ensures q in recent {
      if q !in db.messages {
        var newer := Newer(InChannel(db.messages, c), q);
        assert newer <= recent;
        SubsetSize(newer, recent);
      }
    }
    SubsetSize(Window(posts, c, db.now), recent);
  }

  /** Accepting a post keeps every window within the limit if the window ending now was below it. */
  lemma WindowGrows(posts: Posts, id: MessageId, row: Message, c: ChannelId, limit: nat)
    requires id !in posts && forall m :: m in posts ==> posts[m].createdAt <= row.createdAt
    requires Throttled(posts, c, limit)
    requires row.channel == c ==> |Window(posts, c, row.createdAt)| < limit
    ensures Throttled(posts[id := row], c, limit)
  {
    var after := posts[id := row];
    forall t: Time ensures |Window(after, c, t)| <= limit {
      if row.channel == c && t - MINUTE < row.createdAt <= t {
        assert Window(after, c, t) == Window(posts, c, t) + {id};
        assert Window(posts, c, t) <= Window(posts, c, row.createdAt);
        SubsetSize(Window(posts, c, t), Window(posts, c, row.createdAt));
      } else {
        assert Window(after, c, t) == Window(posts, c, t);
      }
    }
  }

  /** What the ring buffer keeps still covers a post it has discarded, now or earlier. */
  lemma KeptCovers(live: set<MessageId>, kept: set<MessageId>, id: MessageId, q: MessageId, n: nat, limit: nat)
    requires kept <= live + {id} && n >= limit && (forall k, d :: k in kept && d in live + {id} - kept ==> d < k)
    requires |kept| == if n < |live + {id}| then n else |live + {id}|
    requires q !in kept && (q in live || |Newer(live, q)| >= limit)
    ensures |Newer(kept, q)| >= limit
  {
    var was := live + {id};
    var newer := Newer(live, q);
    if q !in live && newer <= kept {
      SubsetSize(newer, Newer(kept, q));
    } else {
      // a row not older than q was trimmed, so what is kept is newer than q, and full
      var x: MessageId := q;
      if q !in live {
        var y :| y in newer && y !in kept;
        x := y;
      }
      assert x in was - kept;
      assert Newer(kept, q) == kept;
      if |was| <= n { SubsetSize(kept, was); }
    }
  }

  lemma UncappedKeeps(db: Db, post: PostRequest, n: nat)
    requires Post(db, post).1.Posted? && db.channels[post.channel].maxMessages.None?
    requires n >= |InChannel(Post(db, post).0.messages, post.channel)|
    ensures RingKeeps(db, post.channel, n, Post(db, post).0.messages)
  {
    var c := post.channel;
    assert InChannel(Post(db, post).0.messages, c) == InChannel(db.messages, c) + {db.nextMessage};
  }

  /** The channel's rows after an accepted post: the newest `n` of the old rows and the new one. */
  lemma PostShape(db: Db, post: PostRequest, limit: nat) returns (n: nat)
    requires Ordered(db) && Post(db, post).1.Posted? && Steady(db.channels[post.channel], limit) && limit >= 1
    ensures n >= limit && RingKeeps(db, post.channel, n, Post(db, post).0.messages)
  {
    var c := post.channel;
    var cap := db.channels[c].maxMessages;
    if cap.Some? {
      n := cap.value;
      RingStep(db, post, n);
    } else {
      n := |InChannel(Post(db, post).0.messages, c)| + limit;
      UncappedKeeps(db, post, n);
    }
  }

  lemma CoverGrows(db: Db, after: Db, posts: Posts, row: Message, c: ChannelId, n: nat, limit: nat)
    requires Covered(db, posts, c, limit) && n >= limit && RingKeeps(db, c, n, after.messages) && after.now == db.now
    requires db.nextMessage in after.messages
    requires forall q :: q in posts && q in db.messages ==> db.messages[q].channel == posts[q].channel
    requires forall q :: q in after.messages && q != db.nextMessage ==> q in db.messages && after.messages[q] == db.messages[q]
    ensures Covered(after, posts[db.nextMessage := row], c, limit)
  {
    var (live, kept) := (InChannel(db.messages, c), InChannel(after.messages, c));
    forall q | q in posts && posts[q].channel == c && q !in after.messages && db.now - MINUTE < posts[q].createdAt
      ensures |Newer(kept, q)| >= limit
    {
      KeptCovers(live, kept, db.nextMessage, q, n, limit);
    }
  }

  lemma PostRows(db: Db, post: PostRequest)
    requires Post(db, post).1.Posted?
    ensures
      var after := Post(db, post).0.messages;
      forall q :: q in after && q != db.nextMessage ==> q in db.messages && after[q] == db.messages[q]
  {
  }

  lemma PostCovered(db: Db, posts: Posts, c: ChannelId, limit: nat, post: PostRequest)
    requires Stamped(db, posts) && Covered(db, posts, c, limit) && limit >= 1
    requires c in db.channels && Steady(db.channels[c], limit) && post.channel == c && Post(db, post).1.Posted?
    ensures Covered(Post(db, post).0, posts[db.nextMessage := Inserted(db, post)[db.nextMessage]], c, limit)
  {
    var n := PostShape(db, post, limit);
    PostRows(db, post);
    CoverGrows(db, Post(db, post).0, posts, Inserted(db, post)[db.nextMessage], c, n, limit);
  }

  // ---------- over a run ----------

  ghost predicate Bounded(db: Db, posts: Posts, c: ChannelId, limit: nat) {
    && Stamped(db, posts) && Throttled(posts, c, limit)
    && (c in db.channels ==> Covered(db, posts, c, limit))
  }

  /** No message of the channel less than a minute old is deleted by a retract in this step. */
  predicate NoFreshRetraction(w: World, l: Label, c: ChannelId) {
    l.RetractWrite? && l.r in w.requests && w.requests[l.r].AtRetractWrite? && w.requests[l.r].m in w.db.messages
    && w.db.messages[w.requests[l.r].m].channel == c
    ==> w.db.messages[w.requests[l.r].m].createdAt <= w.db.now - MINUTE
  }

  lemma PostInOrder(db: Db, posts: Posts, post: PostRequest)
    requires InOrder(db, posts) && post.channel in db.channels && post.channel < db.nextChannel
    ensures InOrder(db.(nextMessage := db.nextMessage + 1), posts[db.nextMessage := Inserted(db, post)[db.nextMessage]])
  {
  }

  lemma PostOrdered(db: Db, post: PostRequest)
    requires Ordered(db) && Post(db, post).1.Posted?
    ensures Ordered(Post(db, post).0)
  {
    InsertOrdered(db, post);
  }

  lemma PostStamped(db: Db, posts: Posts, post: PostRequest)
    requires Stamped(db, posts) && Post(db, post).1.Posted?
    ensures Stamped(Post(db, post).0, posts[db.nextMessage := Inserted(db, post)[db.nextMessage]])
  {
    PostOrdered(db, post);
    PostInOrder(db, posts, post);
    PostRows(db, post);
  }

  lemma OtherChannelCovered(db: Db, posts: Posts, c: ChannelId, limit: nat, post: PostRequest, row: Message)
    requires Covered(db, posts, c, limit) && Post(db, post).1.Posted? && post.channel != c && row.channel == post.channel
    requires db.nextMessage !in db.messages && forall q :: q in posts && q in db.messages ==> db.messages[q].channel == posts[q].channel
    ensures Covered(Post(db, post).0, posts[db.nextMessage := row], c, limit)
  {
    var after := Post(db, post).0;
    forall m | m != db.nextMessage
      ensures m in after.messages && after.messages[m].channel == c <==> m in db.messages && db.messages[m].channel == c
    {
      PostTouchesNothingElse(db, post, m);
    }
    assert InChannel(after.messages, c) == InChannel(db.messages, c);
  }

  lemma PostBounded(db: Db, posts: Posts, c: ChannelId, limit: nat, post: PostRequest)
    requires Bounded(db, posts, c, limit) && Post(db, post).1.Posted? && limit >= 1
    requires c in db.channels ==> Steady(db.channels[c], limit)
    ensures Bounded(Post(db, post).0, posts[db.nextMessage := Inserted(db, post)[db.nextMessage]], c, limit)
  {
    var id := db.nextMessage;
    var row := Inserted(db, post)[id];
    PostStamped(db, posts, post);
    if post.channel == c {
      RecentCounted(db, posts, c, limit);
      PostCovered(db, posts, c, limit, post);
    } else if c in db.channels {
      OtherChannelCovered(db, posts, c, limit, post, row);
    }
    WindowGrows(posts, id, row, c, limit);
  }

  /** Removing rows over a minute old uncovers nothing. */
  lemma OldRowsGo(db: Db, after: Db, posts: Posts, c: ChannelId, limit: nat)
    requires Stamped(db, posts) && Covered(db, posts, c, limit) && after.now == db.now && after.messages.Keys <= db.messages.Keys
    requires forall m :: m in after.messages ==> after.messages[m].channel == db.messages[m].channel
    requires forall m :: m in db.messages && db.messages[m].channel == c && m !in after.messages
                         ==> db.messages[m].createdAt <= db.now - MINUTE
    ensures Covered(after, posts, c, limit)
  {
    var (was, live) := (InChannel(db.messages, c), InChannel(after.messages, c));
    forall q | q in posts && posts[q].channel == c && q !in after.messages && db.now - MINUTE < posts[q].createdAt
      ensures |Newer(live, q)| >= limit
    {
      assert q !in db.messages;
      forall k | k in Newer(was, q) ensures k in Newer(live, q) { assert posts[q].createdAt <= posts[k].createdAt; }
      SubsetSize(Newer(was, q), Newer(live, q));
    }
  }

  lemma RemovalCovered(w: World, l: Label, posts: Posts, c: ChannelId, limit: nat)
    requires Stamped(w.db, posts) && Covered(w.db, posts, c, limit) && Removing(l) && NoFreshRetraction(w, l, c)
    requires c in w.db.channels && w.db.channels[c].ttlSeconds > 60
    requires l.CleanWrite? && l.r in w.requests && w.requests[l.r].Cleaning? ==> w.requests[l.r].cutoff <= w.db.now
    ensures Covered(Next(w, l).db, posts, c, limit)
  {
    var next := Next(w, l);
    RemovalShrinks(w, l);
    if l.CleanWrite? {
      CommitIs(w, l);
      if Commits(w, l) { CleanedOld(w.db, posts, c, w.requests[l.r].cutoff); }
    }
    OldRowsGo(w.db, next.db, posts, c, limit);
  }

  /** What has expired by then was posted over a minute ago. */
  lemma CleanedOld(db: Db, posts: Posts, c: ChannelId, cutoff: Time)
    requires Stamped(db, posts) && c in db.channels && db.channels[c].ttlSeconds > 60 && cutoff <= db.now
    ensures forall m :: m in db.messages && db.messages[m].channel == c && db.messages[m].expiresAt <= cutoff
                        ==> db.messages[m].createdAt <= db.now - MINUTE
  {
    forall m | m in db.messages && db.messages[m].channel == c && db.messages[m].expiresAt <= cutoff
      ensures db.messages[m].createdAt <= db.now - MINUTE
    {
      assert m in posts && SamePost(db.messages[m], posts[m]);
    }
  }

  lemma ShrinkStamped(w: World, l: Label, posts: Posts)
    requires Stamped(w.db, posts) && !(l.Do? && l.op.PostMessage?)
    ensures Stamped(Next(w, l).db, posts)
  {
    NextShrinks(w, l);
    NextChannels(w, l);
  }

  /** Channels keep their TTL, and identifiers of channels are not used again. */
  lemma NextChannels(w: World, l: Label)
    requires forall c :: c in w.db.channels ==> c < w.db.nextChannel
    ensures
      var next := Next(w, l);
      && w.db.now <= next.db.now && w.db.nextChannel <= next.db.nextChannel
      && (forall c :: c in next.db.channels ==>
            if c in w.db.channels then next.db.channels[c].ttlSeconds == w.db.channels[c].ttlSeconds
            else c == w.db.nextChannel && c < next.db.nextChannel)
  {
    if l.CleanWrite? { CommitIs(w, l); }
    else if !l.Do? && !l.RetractWrite? { RequestsQuiet(w, l); }
    else if l.Do? && (l.op.Pulse? || l.op.GiveBack? || l.op.Acknowledge?) { ClaimOpsQuiet(w, l.op); }
  }

  /** With the same rows in the channel, at the same time or later, the cover stays. */
  lemma CoverStays(was: Db, db: Db, posts: Posts, c: ChannelId, limit: nat)
    requires Covered(was, posts, c, limit) && was.now <= db.now
    requires forall m :: m in was.messages && was.messages[m].channel == c ==> m in db.messages
    requires InChannel(db.messages, c) == InChannel(was.messages, c)
    requires forall q :: q in posts && posts[q].channel == c && q in was.messages ==> was.messages[q].channel == c
    ensures Covered(db, posts, c, limit)
  {
  }

  lemma PerformSameChannel(w: World, op: Op, c: ChannelId)
    requires !op.PostMessage? && !op.Pulse? && !op.GiveBack? && !op.Acknowledge?
    requires c in Perform(w, op).db.channels && c in w.db.channels
    ensures InChannel(Perform(w, op).db.messages, c) == InChannel(w.db.messages, c) && w.db.now <= Perform(w, op).db.now
  {
  }

  /** Every other request leaves the channel's rows where they are. */
  lemma NextSameChannel(w: World, l: Label, c: ChannelId)
    requires !(l.Do? && l.op.PostMessage?) && !Removing(l)
    requires c in w.db.channels && c in Next(w, l).db.channels
    ensures InChannel(Next(w, l).db.messages, c) == InChannel(w.db.messages, c) && w.db.now <= Next(w, l).db.now
  {
    if !l.Do? { RequestsQuiet(w, l); }
    else if l.op.Pulse? || l.op.GiveBack? || l.op.Acknowledge? { ClaimOpsQuiet(w, l.op); }
    else { PerformSameChannel(w, l.op, c); }
  }

  /** A channel that is new has no posts to cover. */
  lemma ShrinkCovered(w: World, l: Label, posts: Posts, c: ChannelId, limit: nat)
    requires Bounded(w.db, posts, c, limit) && !(l.Do? && l.op.PostMessage?) && NoFreshRetraction(w, l, c)
    requires c in Next(w, l).db.channels && (c in w.db.channels ==> w.db.channels[c].ttlSeconds > 60)
    requires l.CleanWrite? && l.r in w.requests && w.requests[l.r].Cleaning? ==> w.requests[l.r].cutoff <= w.db.now
    ensures Covered(Next(w, l).db, posts, c, limit)
  {
    var next := Next(w, l);
    NextChannels(w, l);
    if c !in w.db.channels {
      assert forall q :: q in posts ==> posts[q].channel != c;
    } else if Removing(l) {
      RemovalCovered(w, l, posts, c, limit);
    } else {
      NextSameChannel(w, l, c);
      forall m | m in w.db.messages && w.db.messages[m].channel == c ensures m in next.db.messages {
        assert m in InChannel(w.db.messages, c);
      }
      CoverStays(w.db, next.db, posts, c, limit);
    }
  }

  lemma NextBounded(w: World, l: Label, c: ChannelId, limit: nat)
    requires Bounded(w.db, PostsOf(w.history), c, limit) && limit >= 1
    requires c in w.db.channels ==> Steady(w.db.channels[c], limit)
    requires NoFreshRetraction(w, l, c) && Claims.Inv(w)
    ensures Bounded(Next(w, l).db, PostsOf(Next(w, l).history), c, limit)
  {
    var posts := PostsOf(w.history);
    if l.Do? && l.op.PostMessage? {
      if Post(w.db, l.op.post).1.Posted? {
        PostBounded(w.db, posts, c, limit, l.op.post);
        LifeSnoc(w.history, Entry(w.db.now, Posting(w.db, l.op.post)), 0);
      }
    } else {
      ShrinkStamped(w, l, posts);
      if l.CleanWrite? && l.r in w.requests { assert Claims.RequestOk(w.requests[l.r], w.db.now); }
      if c in Next(w, l).db.channels { ShrinkCovered(w, l, posts, c, limit); }
      Archiving.NextPosts(w, l);
    }
  }

  /** The channel's limits hold throughout the run, and none of its messages is retracted within a minute of its post. */
  ghost predicate SteadyRun(run: seq<Label>, c: ChannelId, limit: nat) {
    forall k: nat :: k < |run| ==>
      var w := Exec(START, run[..k]);
      (c in w.db.channels ==> Steady(w.db.channels[c], limit)) && NoFreshRetraction(w, run[k], c)
  }

  lemma {:induction false} RunBounded(run: seq<Label>, c: ChannelId, limit: nat)
    requires SteadyRun(run, c, limit) && limit >= 1
    ensures Bounded(Exec(START, run).db, PostsOf(Exec(START, run).history), c, limit)
  {
    if run == [] {
      assert EMPTY.messages == map[] && PostsOf(START.history) == map[];
      forall t: Time ensures Window(map[], c, t) == {} { }
    } else {
      var (most, last) := (run[..|run| - 1], run[|run| - 1]);
      forall k: nat | k < |most| ensures most[..k] == run[..k] && most[k] == run[k] { }
      RunBounded(most, c, limit);
      assert run[..|most|] == most;
      Claims.Reachable(most);
      NextBounded(Exec(START, most), last, c, limit);
    }
  }

  /** Every 60-second window of the run holds at most `limit` accepted posts of the channel. */
  lemma WritesThrottled(run: seq<Label>, c: ChannelId, limit: nat, t: Time)
    requires SteadyRun(run, c, limit) && limit >= 1
    ensures |Window(PostsOf(Exec(START, run).history), c, t)| <= limit
  {
    RunBounded(run, c, limit);
  }

  // ---------- a ring buffer smaller than the limit ----------

  /** A channel whose cap is below its write limit, holding no more than its cap, that takes the post otherwise. */
  ghost predicate Undercut(db: Db, post: PostRequest, cap: nat, limit: nat) {
    && post.channel in db.channels && post.allowed && post.schemaOk
    && !db.channels[post.channel].paused
    && db.channels[post.channel].maxWrites == Some(limit) && db.channels[post.channel].maxMessages == Some(cap)
    && 1 <= cap < limit && |InChannel(db.messages, post.channel)| <= cap
  }

  lemma UndercutAccepts(db: Db, post: PostRequest, cap: nat, limit: nat)
    requires Ordered(db) && Undercut(db, post, cap, limit)
    ensures Post(db, post).1 == Posted(db.nextMessage) && Undercut(Post(db, post).0, post, cap, limit)
  {
    var c := post.channel;
    SubsetSize(Recent(db.messages, c, db.now - MINUTE), InChannel(db.messages, c));
    RingStep(db, post, cap);
  }

  lemma WindowGains(posts: Posts, id: MessageId, row: Message, t: Time)
    requires id !in posts && row.createdAt == t
    ensures |Window(posts[id := row], row.channel, t)| == |Window(posts, row.channel, t)| + 1
  {
    assert Window(posts[id := row], row.channel, t) == Window(posts, row.channel, t) + {id};
  }

  /** A world ready for a burst of posts. */
  ghost predicate Ready(w: World, post: PostRequest, cap: nat, limit: nat) {
    && Ordered(w.db) && Undercut(w.db, post, cap, limit)
    && w.db.nextMessage !in PostsOf(w.history)
    && (forall m :: m in PostsOf(w.history) ==> m < w.db.nextMessage)
  }

  ghost function Load(w: World, c: ChannelId, t: Time): nat { |Window(PostsOf(w.history), c, t)| }

  lemma AcceptedPost(w: World, post: PostRequest)
    requires Post(w.db, post).1.Posted?
    ensures
      var (next, id) := (Next(w, Do(PostMessage(post))), w.db.nextMessage);
      && next.db == Post(w.db, post).0 && next.db.nextMessage == id + 1 && next.db.now == w.db.now
      && PostsOf(next.history) == PostsOf(w.history)[id := Inserted(w.db, post)[id]]
  {
    LifeSnoc(w.history, Entry(w.db.now, Posting(w.db, post)), 0);
  }

  /** One post of a burst: accepted, and counted in the window that ends now. */
  lemma BurstStep(w: World, post: PostRequest, cap: nat, limit: nat) returns (next: World)
    requires Ready(w, post, cap, limit)
    ensures forall run: seq<Label> :: Exec(w, [Do(PostMessage(post))] + run) == Exec(next, run)
    ensures Ready(next, post, cap, limit) && next.db.now == w.db.now
    ensures Load(next, post.channel, w.db.now) == Load(w, post.channel, w.db.now) + 1
  {
    var id := w.db.nextMessage;
    next := Next(w, Do(PostMessage(post)));
    forall run: seq<Label> ensures Exec(w, [Do(PostMessage(post))] + run) == Exec(next, run) {
      ExecCons(w, Do(PostMessage(post)), run);
    }
    UndercutAccepts(w.db, post, cap, limit);
    PostOrdered(w.db, post);
    AcceptedPost(w, post);
    WindowGains(PostsOf(w.history), id, Inserted(w.db, post)[id], w.db.now);
  }

  lemma {:induction false} Burst(w: World, post: PostRequest, cap: nat, limit: nat, k: nat)
    requires Ready(w, post, cap, limit)
    ensures
      var end := Exec(w, Repeat(Do(PostMessage(post)), k));
      end.db.now == w.db.now && Load(end, post.channel, w.db.now) == Load(w, post.channel, w.db.now) + k
    decreases k
  {
    if k > 0 {
      var next := BurstStep(w, post, cap, limit);
      Burst(next, post, cap, limit, k - 1);
    }
  }

  /** The condition on the cap is needed: the throttle counts surviving rows, so below a cap smaller than the limit it
   *  refuses nothing, and any number of posts is accepted in one instant. */
  lemma SmallCapDefeatsThrottle(run: seq<Label>, post: PostRequest, cap: nat, limit: nat, k: nat)
    requires Undercut(Exec(START, run).db, post, cap, limit)
    ensures
      var end := Exec(START, run + Repeat(Do(PostMessage(post)), k));
      |Window(PostsOf(end.history), post.channel, end.db.now)| >= k
  {
    RunOrdered(run);
    Reachable(run);
    assert Tracked(Exec(START, run), Exec(START, run).db.nextMessage);
    forall m | m in PostsOf(Exec(START, run).history) ensures m < Exec(START, run).db.nextMessage { assert Tracked(Exec(START, run), m); }
    assert Ready(Exec(START, run), post, cap, limit);
    Burst(Exec(START, run), post, cap, limit, k);
    ExecAppend(START, run, Repeat(Do(PostMessage(post)), k));
  }

  // ---------- retracting fresh messages ----------

  /** A channel with steady limits that takes one more post, and then no other. */
  ghost predicate LastSlot(db: Db, post: PostRequest, limit: nat) {
    && post.channel in db.channels && post.allowed && post.schemaOk && !db.channels[post.channel].paused
    && Steady(db.channels[post.channel], limit) && limit >= 1
    && |Recent(db.messages, post.channel, db.now - MINUTE)| == limit - 1
  }

  /** A world in which a post to a steady channel is accepted. */
  ghost predicate Accepts(w: World, post: PostRequest, limit: nat) {
    && Ordered(w.db) && (forall m :: m in PostsOf(w.history) ==> m < w.db.nextMessage)
    && PostRefusal(w.db, post).None? && Steady(w.db.channels[post.channel], limit) && limit >= 1
  }

  lemma AcceptedRow(db: Db, post: PostRequest, limit: nat)
    requires Ordered(db) && PostRefusal(db, post).None? && Steady(db.channels[post.channel], limit) && limit >= 1
    ensures
      var (after, id) := (Post(db, post).0.messages, db.nextMessage);
      && id in after && after[id].holder.None? && after[id].channel == post.channel
      && (forall q :: q in after && q != id ==> q in db.messages && after[q] == db.messages[q])
  {
    var n := PostShape(db, post, limit);
    PostRows(db, post);
    assert db.nextMessage in InChannel(Post(db, post).0.messages, post.channel);
  }

  /** Running on from `next` is running `step` and then on. */
  ghost predicate LeadsTo(w: World, step: seq<Label>, next: World) {
    forall more: seq<Label> :: Exec(w, step + more) == Exec(next, more)
  }

  lemma OnePosted(w: World, post: PostRequest, limit: nat) returns (next: World)
    requires Accepts(w, post, limit)
    ensures LeadsTo(w, [Do(PostMessage(post))], next)
    ensures next.requests == w.requests && next.db.channels == w.db.channels && next.db.now == w.db.now
    ensures next.db.nextMessage == w.db.nextMessage + 1 && Ordered(next.db)
    ensures forall m :: m in PostsOf(next.history) ==> m < next.db.nextMessage
    ensures Load(next, post.channel, w.db.now) == Load(w, post.channel, w.db.now) + 1
    ensures
      var (after, id) := (next.db.messages, w.db.nextMessage);
      && id in after && after[id].holder.None? && after[id].channel == post.channel
      && (forall q :: q in after && q != id ==> q in w.db.messages && after[q] == w.db.messages[q])
  {
    next := Next(w, Do(PostMessage(post)));
    forall more: seq<Label> ensures Exec(w, [Do(PostMessage(post))] + more) == Exec(next, more) {
      ExecCons(w, Do(PostMessage(post)), more);
    }
    AcceptedPost(w, post);
    AcceptedRow(w.db, post, limit);
    PostOrdered(w.db, post);
    WindowGains(PostsOf(w.history), w.db.nextMessage, Inserted(w.db, post)[w.db.nextMessage], w.db.now);
  }

  lemma RetractedAgain(w: World, r: RequestId, m: MessageId) returns (run: seq<Label>, next: World)
    requires r !in w.requests && m in w.db.messages && w.db.messages[m].holder.None? && w.db.messages[m].channel in w.db.channels
    ensures LeadsTo(w, run, next)
    ensures next.db.messages == Without(w.db.messages, {m}) && next.db.channels == w.db.channels && next.db.now == w.db.now
    ensures next.db.nextMessage == w.db.nextMessage && PostsOf(next.history) == PostsOf(w.history)
  {
    run := Steps(TakeBack(r, m, true));
    RetractIsWhole(w, r, m, true);
    next := Exec(w, run);
    forall more: seq<Label> ensures Exec(w, run + more) == Exec(next, more) { ExecAppend(w, run, more); }
    LifeSnoc(w.history, Entry(w.db.now, Withdrawn(Archive(m, w.db.messages[m], [], w.db.now), {m})), 0);
  }

  lemma LeadsOn(w: World, a: seq<Label>, between: World, b: seq<Label>, next: World)
    requires LeadsTo(w, a, between) && LeadsTo(between, b, next)
    ensures LeadsTo(w, a + b, next)
  {
    forall more: seq<Label> ensures Exec(w, a + b + more) == Exec(next, more) { assert a + b + more == a + (b + more); }
  }

  /** With no other rows than before, a post accepted before is accepted now. */
  lemma StillAccepts(w: World, next: World, post: PostRequest, limit: nat)
    requires Accepts(w, post, limit) && next.db.channels == w.db.channels && next.db.now == w.db.now
    requires forall q :: q in next.db.messages ==> q in w.db.messages && next.db.messages[q] == w.db.messages[q]
    requires next.db.nextMessage >= w.db.nextMessage && forall m :: m in PostsOf(next.history) ==> m < next.db.nextMessage
    ensures Accepts(next, post, limit)
  {
    FewerRecent(w.db.messages, next.db.messages, post.channel, w.db.now - MINUTE);
  }

  /** A post and its retract: one post more in the window, no row more in the table. */
  lemma PostAndRetract(w: World, post: PostRequest, limit: nat, r: RequestId) returns (run: seq<Label>, next: World)
    requires Accepts(w, post, limit) && r !in w.requests
    ensures LeadsTo(w, run, next) && Accepts(next, post, limit) && next.db.now == w.db.now
    ensures Load(next, post.channel, w.db.now) == Load(w, post.channel, w.db.now) + 1
  {
    var w1 := OnePosted(w, post, limit);
    run, next := RetractedAgain(w1, r, w.db.nextMessage);
    LeadsOn(w, [Do(PostMessage(post))], w1, run, next);
    run := [Do(PostMessage(post))] + run;
    StillAccepts(w, next, post, limit);
  }

  lemma FewerRecent(was: MessageTable, ms: MessageTable, c: ChannelId, since: Time)
    requires forall q :: q in ms ==> q in was && ms[q] == was[q]
    ensures |Recent(ms, c, since)| <= |Recent(was, c, since)|
  {
    SubsetSize(Recent(ms, c, since), Recent(was, c, since));
  }

  lemma {:induction false} RunStamped(run: seq<Label>)
    ensures Stamped(Exec(START, run).db, PostsOf(Exec(START, run).history))
  {
    if run == [] {
      assert EMPTY.messages == map[] && PostsOf(START.history) == map[];
    } else {
      var (w, l) := (Exec(START, run[..|run| - 1]), run[|run| - 1]);
      RunStamped(run[..|run| - 1]);
      if l.Do? && l.op.PostMessage? {
        if Post(w.db, l.op.post).1.Posted? {
          PostStamped(w.db, PostsOf(w.history), l.op.post);
          AcceptedPost(w, l.op.post);
        }
      } else {
        ShrinkStamped(w, l, PostsOf(w.history));
        Archiving.NextPosts(w, l);
      }
    }
  }

  lemma RecentPosted(w: World, c: ChannelId)
    requires Stamped(w.db, PostsOf(w.history))
    ensures |Recent(w.db.messages, c, w.db.now - MINUTE)| <= Load(w, c, w.db.now)
  {
    SubsetSize(Recent(w.db.messages, c, w.db.now - MINUTE), Window(PostsOf(w.history), c, w.db.now));
  }

  lemma PostRetractPost(w: World, post: PostRequest, limit: nat, r: RequestId) returns (more: seq<Label>, end: World)
    requires Accepts(w, post, limit) && r !in w.requests
    ensures LeadsTo(w, more, end) && end.db.now == w.db.now
    ensures Load(end, post.channel, w.db.now) == Load(w, post.channel, w.db.now) + 2
  {
    var steps, next := PostAndRetract(w, post, limit, r);
    end := OnePosted(next, post, limit);
    LeadsOn(w, steps, next, [Do(PostMessage(post))], end);
    more := steps + [Do(PostMessage(post))];
  }

  lemma LeadsToEnd(run: seq<Label>, more: seq<Label>, end: World)
    requires LeadsTo(Exec(START, run), more, end)
    ensures Exec(START, run + more) == end
  {
    assert more + [] == more;
    ExecAppend(START, run, more);
  }

  lemma LastSlotAccepts(w: World, post: PostRequest, limit: nat)
    requires LastSlot(w.db, post, limit) && Stamped(w.db, PostsOf(w.history))
    ensures Accepts(w, post, limit) && Load(w, post.channel, w.db.now) >= limit - 1
  {
    RecentPosted(w, post.channel);
  }

  /** The condition on retractions is needed: in the last free place of a minute, a post, its retract and another post,
   *  all in one instant, put one post more than the limit into that minute. */
  lemma RetractionDefeatsThrottle(run: seq<Label>, post: PostRequest, limit: nat, r: RequestId) returns (more: seq<Label>)
    requires LastSlot(Exec(START, run).db, post, limit) && r !in Exec(START, run).requests
    ensures
      var end := Exec(START, run + more);
      |Window(PostsOf(end.history), post.channel, end.db.now)| > limit
  {
    RunStamped(run);
    LastSlotAccepts(Exec(START, run), post, limit);
    var end;
    more, end := PostRetractPost(Exec(START, run), post, limit, r);
    LeadsToEnd(run, more, end);
  }
}
