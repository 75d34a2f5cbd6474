/** Cursor paging over a channel, and the queue-drain verb built on it. */
module Paging {
  import opened Common
  import opened Tables

  /** `claimed` is the status filter: None for no filter. */
  datatype Filter = Filter(claimed: Option<bool>, expiringBefore: Option<Time>)

  predicate Matches(row: Message, c: ChannelId, now: Time, since: Option<Time>, f: Filter) {
    && row.channel == c && row.expiresAt > now
    && (since.Some? ==> row.createdAt > since.value)
    && (f.claimed.Some? ==> row.holder.Some? == f.claimed.value)
    && (f.expiringBefore.Some? ==> row.expiresAt < f.expiringBefore.value)
  }

  function Matching(ms: MessageTable, c: ChannelId, now: Time, since: Option<Time>, f: Filter): set<MessageId> {
    set m | m in ms && Matches(ms[m], c, now, since, f)
  }

  /** A result the SELECT ... ORDER BY created_at LIMIT may return for the rows `rows`; ties come in any order. */
  ghost predicate IsPage(ms: MessageTable, rows: set<MessageId>, limit: nat, page: seq<MessageId>) {
    && rows <= ms.Keys
    && |page| == (if limit < |rows| then limit else |rows|)
    && (forall i :: 0 <= i < |page| ==> page[i] in rows)
    && (forall i, j :: 0 <= i < j < |page| ==> page[i] != page[j] && ms[page[i]].createdAt <= ms[page[j]].createdAt)
    && (forall i, m :: 0 <= i < |page| && m in rows && m !in page ==> ms[page[i]].createdAt <= ms[m].createdAt)
  }

  /** What a page holds, row by row: nothing but unexpired messages of the channel, younger than `since`, of the asked
   *  claim status and expiring before the asked time; and every such message, or else the oldest `limit` of them. */
  lemma PageHolds(ms: MessageTable, c: ChannelId, now: Time, since: Option<Time>, f: Filter, limit: nat,
                  page: seq<MessageId>, m: MessageId)
    requires IsPage(ms, Matching(ms, c, now, since, f), limit, page) && m in ms
    ensures
      var row := ms[m];
      var wanted := && row.channel == c && now < row.expiresAt
                    && (since == None || since.value < row.createdAt)
                    && (f.claimed == Some(true) ==> row.holder != None) && (f.claimed == Some(false) ==> row.holder == None)
                    && (f.expiringBefore == None || row.expiresAt < f.expiringBefore.value);
      && (m in page ==> wanted)
      && (wanted && m !in page ==>
            |page| == limit && forall i :: 0 <= i < |page| ==> page[i] in ms && ms[page[i]].createdAt <= row.createdAt)
  {
    var rows := Matching(ms, c, now, since, f);
    if m in rows && m !in page && |page| == |rows| {
      ElementsSize(page);
      SubsetSize(Elements(page), rows);
    }
  }

  function NextCursor(ms: MessageTable, page: seq<MessageId>, since: Option<Time>): Option<Time> {
    if page != [] && page[|page| - 1] in ms then Some(ms[page[|page| - 1]].createdAt) else since
  }

  ghost predicate DistinctTimes(ms: MessageTable, rows: set<MessageId>) {
    forall a, b :: a in rows && b in rows && a in ms && b in ms && ms[a].createdAt == ms[b].createdAt ==> a == b
  }

  /** Exactly which messages a page makes later pages skip: those left out that tie with its last row. */
  lemma SkippedIffTied(ms: MessageTable, c: ChannelId, now: Time, since: Option<Time>, f: Filter, limit: nat,
                       page: seq<MessageId>, m: MessageId)
    requires IsPage(ms, Matching(ms, c, now, since, f), limit, page) && page != []
    requires m in Matching(ms, c, now, since, f) && m !in page
    ensures m !in Matching(ms, c, now, NextCursor(ms, page, since), f)
            <==> ms[m].createdAt == ms[page[|page| - 1]].createdAt
  {
    var last := page[|page| - 1];
    assert ms[last].createdAt <= ms[m].createdAt;
  }

  // ---------- walking a channel page by page ----------

  /** One call of a walk: the table and the clock it saw, the cursor it was given, the page it got. */
  datatype Call = Call(ms: MessageTable, now: Time, since: Option<Time>, page: seq<MessageId>)

  function After(call: Call): Option<Time> { NextCursor(call.ms, call.page, call.since) }

  /** Everything that matches when the call is made. */
  ghost function Rows(call: Call, c: ChannelId, f: Filter): set<MessageId> {
    Matching(call.ms, c, call.now, None, f)
  }

  /** What is still to come when the call is made. */
  ghost function Remaining(call: Call, c: ChannelId, f: Filter): set<MessageId> {
    Matching(call.ms, c, call.now, call.since, f)
  }

  ghost predicate CallOk(call: Call, c: ChannelId, f: Filter, limit: nat) {
    limit >= 1 && IsPage(call.ms, Remaining(call, c, f), limit, call.page) && DistinctTimes(call.ms, Rows(call, c, f))
  }

  /** The first call starts at the beginning, every other follows the cursor of the one before. */
  ghost predicate Follows(walk: seq<Call>, k: nat)
    requires k < |walk|
  {
    walk[k].since == if k == 0 then None else After(walk[k - 1])
  }

  /** Rows never change their creation time. */
  ghost predicate SameTimes(a: Call, b: Call) {
    forall m :: m in a.ms && m in b.ms ==> a.ms[m].createdAt == b.ms[m].createdAt
  }

  ghost predicate IsWalk(walk: seq<Call>, c: ChannelId, f: Filter, limit: nat) {
    && (forall k: nat {:trigger Follows(walk, k)} :: k < |walk| ==> CallOk(walk[k], c, f, limit) && Follows(walk, k))
    && (forall j: nat, k: nat :: j < |walk| && k < |walk| ==> SameTimes(walk[j], walk[k]))
  }

  predicate Passed(cursor: Option<Time>, t: Time) { cursor.Some? && t <= cursor.value }

  predicate NotBefore(a: Option<Time>, b: Option<Time>) { a.Some? ==> b.Some? && a.value <= b.value }

  /** A row a page returns was ahead of the cursor given, and is not ahead of the cursor returned. */
  lemma PageBetweenCursors(call: Call, c: ChannelId, f: Filter, limit: nat, m: MessageId)
    requires CallOk(call, c, f, limit) && m in call.page
    ensures m in call.ms && m in Rows(call, c, f)
    ensures !Passed(call.since, call.ms[m].createdAt) && Passed(After(call), call.ms[m].createdAt)
  {
    var i :| 0 <= i < |call.page| && call.page[i] == m;
    assert call.page[|call.page| - 1] in Remaining(call, c, f);
  }

  lemma CursorMoves(call: Call, c: ChannelId, f: Filter, limit: nat)
    requires CallOk(call, c, f, limit)
    ensures NotBefore(call.since, After(call))
  {
    if call.page != [] { PageBetweenCursors(call, c, f, limit, call.page[|call.page| - 1]); }
  }

  lemma {:induction false} CursorAhead(walk: seq<Call>, c: ChannelId, f: Filter, limit: nat, j: nat, k: nat)
    requires IsWalk(walk, c, f, limit) && j < k < |walk|
    ensures NotBefore(After(walk[j]), walk[k].since)
    decreases k
  {
    assert Follows(walk, k) && Follows(walk, k - 1);
    if j < k - 1 {
      CursorAhead(walk, c, f, limit, j, k - 1);
      CursorMoves(walk[k - 1], c, f, limit);
    }
  }

  /** In order and exactly once: what a later call returns is younger than what an earlier one
   *  returned, so no message is returned by two calls. */
  lemma InOrder(walk: seq<Call>, c: ChannelId, f: Filter, limit: nat, j: nat, k: nat, a: MessageId, b: MessageId)
    requires IsWalk(walk, c, f, limit) && j < k < |walk| && a in walk[j].page && b in walk[k].page
    ensures a in walk[j].ms && b in walk[k].ms && walk[j].ms[a].createdAt < walk[k].ms[b].createdAt
    ensures a != b
  {
    assert Follows(walk, j) && Follows(walk, k);
    PageBetweenCursors(walk[j], c, f, limit, a);
    PageBetweenCursors(walk[k], c, f, limit, b);
    CursorAhead(walk, c, f, limit, j, k);
    assert SameTimes(walk[j], walk[k]);
  }

  /** One call returns a message that the cursor moves past. */
  lemma PassedIsReturned(call: Call, c: ChannelId, f: Filter, limit: nat, m: MessageId)
    requires CallOk(call, c, f, limit) && m in Rows(call, c, f)
    requires !Passed(call.since, call.ms[m].createdAt) && Passed(After(call), call.ms[m].createdAt)
    ensures m in call.page
  {
    var last := call.page[|call.page| - 1];
    PageBetweenCursors(call, c, f, limit, last);
  }

  /** Gap-free: a message that matches from call `j` on and was ahead of the cursor then (it was there
   *  from the start, or it was stamped later) is returned by the time the cursor has passed it. */
  lemma {:induction false} GapFree(walk: seq<Call>, c: ChannelId, f: Filter, limit: nat, j: nat, k: nat, m: MessageId)
    returns (p: nat)
    requires IsWalk(walk, c, f, limit) && j <= k < |walk|
    requires forall q: nat :: j <= q <= k ==> m in Rows(walk[q], c, f)
    requires m in walk[j].ms && !Passed(walk[j].since, walk[j].ms[m].createdAt)
    requires Passed(After(walk[k]), walk[j].ms[m].createdAt)
    ensures j <= p <= k && m in walk[p].page
    decreases k
  {
    assert Follows(walk, j) && Follows(walk, k) && SameTimes(walk[j], walk[k]);
    if j < k && Passed(walk[k].since, walk[j].ms[m].createdAt) {
      p := GapFree(walk, c, f, limit, j, k - 1, m);
    } else {
      PassedIsReturned(walk[k], c, f, limit, m);
      p := k;
    }
  }

  // ---------- on a fixed set the walk ends ----------

  ghost predicate FixedRows(walk: seq<Call>, c: ChannelId, f: Filter, rows: set<MessageId>) {
    forall k: nat {:trigger Follows(walk, k)} :: k < |walk| ==> Rows(walk[k], c, f) == rows
  }

  function Elements(s: seq<MessageId>): set<MessageId> { set m | m in s }

  lemma {:induction false} ElementsSize(s: seq<MessageId>)
    requires forall i, j :: 0 <= i < j < |s| ==> s[i] != s[j]
    ensures |Elements(s)| == |s|
  {
    if s == [] {
      assert Elements(s) == {};
    } else {
      var (most, last) := (s[..|s| - 1], s[|s| - 1]);
      ElementsSize(most);
      assert s == most + [last];
      assert Elements(s) == Elements(most) + {last};
    }
  }

  /** A call takes its page, and nothing else, off what remains. */
  lemma PageTaken(call: Call, next: Call, c: ChannelId, f: Filter, limit: nat)
    requires CallOk(call, c, f, limit) && SameTimes(call, next) && next.since == After(call)
    requires Rows(call, c, f) == Rows(next, c, f)
    ensures Remaining(next, c, f) == Remaining(call, c, f) - Elements(call.page)
  {
    var (here, later) := (Remaining(call, c, f), Remaining(next, c, f));
    CursorMoves(call, c, f, limit);
    forall m ensures m in later <==> m in here && m !in call.page {
      if m in later { assert m in Rows(next, c, f); }
      if m in here { assert m in Rows(call, c, f) && m in Rows(next, c, f); }
      if m in call.page { PageBetweenCursors(call, c, f, limit, m); }
      else if m in here && Passed(After(call), call.ms[m].createdAt) { PassedIsReturned(call, c, f, limit, m); }
    }
  }

  lemma PageSize(call: Call, c: ChannelId, f: Filter, limit: nat)
    requires CallOk(call, c, f, limit)
    ensures |Remaining(call, c, f) - Elements(call.page)|
            == (if |Remaining(call, c, f)| < limit then 0 else |Remaining(call, c, f)| - limit)
  {
    ElementsSize(call.page);
    assert Elements(call.page) <= Remaining(call, c, f);
  }

  lemma WalkStep(walk: seq<Call>, c: ChannelId, f: Filter, limit: nat, rows: set<MessageId>, k: nat)
    requires IsWalk(walk, c, f, limit) && FixedRows(walk, c, f, rows) && 0 < k < |walk|
    ensures CallOk(walk[k - 1], c, f, limit)
    ensures Remaining(walk[k], c, f) == Remaining(walk[k - 1], c, f) - Elements(walk[k - 1].page)
  {
    assert Follows(walk, k) && Follows(walk, k - 1) && SameTimes(walk[k - 1], walk[k]);
    PageTaken(walk[k - 1], walk[k], c, f, limit);
  }

  /** What is left of n things after k takes of up to `limit` each. */
  function Left(n: nat, limit: nat, k: nat): nat {
    if k == 0 then n else if Left(n, limit, k - 1) < limit then 0 else Left(n, limit, k - 1) - limit
  }

  lemma {:induction false} LeftClosed(n: nat, limit: nat, k: nat)
    ensures Left(n, limit, k) == if k * limit < n then n - k * limit else 0
  {
    if k > 0 {
      LeftClosed(n, limit, k - 1);
      assert k * limit == (k - 1) * limit + limit;
    }
  }

  lemma {:induction false} WalkLeaves(walk: seq<Call>, c: ChannelId, f: Filter, limit: nat, rows: set<MessageId>, k: nat)
    requires IsWalk(walk, c, f, limit) && FixedRows(walk, c, f, rows) && k < |walk|
    ensures |Remaining(walk[k], c, f)| == Left(|rows|, limit, k)
    decreases k
  {
    if k == 0 {
      assert Follows(walk, k);
    } else {
      WalkLeaves(walk, c, f, limit, rows, k - 1);
      WalkStep(walk, c, f, limit, rows, k);
      PageSize(walk[k - 1], c, f, limit);
    }
  }

  /** On a fixed set of n matching messages, call k (counted from 0) has n - k * limit of them left:
   *  the walk has returned everything after n / limit calls, rounded up, and the next page is empty. */
  lemma WalkEnds(walk: seq<Call>, c: ChannelId, f: Filter, limit: nat, rows: set<MessageId>, k: nat)
    requires IsWalk(walk, c, f, limit) && FixedRows(walk, c, f, rows) && k < |walk|
    ensures |Remaining(walk[k], c, f)| == if k * limit < |rows| then |rows| - k * limit else 0
    ensures walk[k].page == [] <==> k * limit >= |rows|
  {
    WalkLeaves(walk, c, f, limit, rows, k);
    LeftClosed(|rows|, limit, k);
    assert Follows(walk, k);
  }

  /** And everything that no longer remains has been returned. */
  lemma {:induction false} AllReturned(walk: seq<Call>, c: ChannelId, f: Filter, limit: nat, rows: set<MessageId>, k: nat, m: MessageId)
    returns (p: nat)
    requires IsWalk(walk, c, f, limit) && FixedRows(walk, c, f, rows) && k < |walk|
    requires m in rows && k * limit >= |rows|
    ensures p < k && m in walk[p].page
  {
    WalkEnds(walk, c, f, limit, rows, k);
    assert Follows(walk, k) && m !in Remaining(walk[k], c, f);
    p := TakenEarlier(walk, c, f, limit, rows, k, m);
  }

  lemma {:induction false} TakenEarlier(walk: seq<Call>, c: ChannelId, f: Filter, limit: nat, rows: set<MessageId>, k: nat, m: MessageId)
    returns (p: nat)
    requires IsWalk(walk, c, f, limit) && FixedRows(walk, c, f, rows) && k < |walk|
    requires m in rows && m !in Remaining(walk[k], c, f)
    ensures p < k && m in walk[p].page
    decreases k
  {
    assert Follows(walk, k);
    if k > 0 {
      WalkStep(walk, c, f, limit, rows, k);
      if m in walk[k - 1].page { p := k - 1; } else { p := TakenEarlier(walk, c, f, limit, rows, k - 1, m); }
    }
  }

  // ---------- the queue-drain verb ----------

  const UNCLAIMED: Filter := Filter(Some(false), None)

  /** What a drain call may hand out. */
  function Queue(db: Db, c: ChannelId): set<MessageId> {
    Matching(db.messages, c, db.now, None, UNCLAIMED)
  }

  ghost predicate Oldest(ms: MessageTable, rows: set<MessageId>, m: MessageId) {
    m in rows && rows <= ms.Keys && forall x :: x in rows ==> ms[m].createdAt <= ms[x].createdAt
  }

  function DrainClaim(m: MessageId, actor: Actor, key: Key): ClaimRequest {
    ClaimRequest(m, actor, key, true, None)
  }

  /** One drain call on a claimable channel its caller may use: it claims the oldest queued message, or
   *  answers null and changes nothing when the queue is empty. */
  ghost predicate DrainStep(db: Db, c: ChannelId, actor: Actor, key: Key, result: Option<MessageId>, after: Db) {
    match result
    case Some(m) => Oldest(db.messages, Queue(db, c), m) && after == ClaimUpdate(db, DrainClaim(m, actor, key), None, db.now).0
    case None => Queue(db, c) == {} && after == db
  }

  /** A message nobody holds, unexpired, in the channel. */
  predicate Free(db: Db, c: ChannelId, m: MessageId) {
    m in db.messages && db.messages[m].channel == c && db.messages[m].expiresAt > db.now && db.messages[m].holder == None
  }

  /** A drain call hands its caller a free message, none older being free, and from then on the caller holds it; it
   *  answers null exactly when no message of the channel is free. */
  lemma DrainHandsOut(db: Db, c: ChannelId, worker: Worker, result: Option<MessageId>, after: Db)
    requires DrainStep(db, c, worker.actor, worker.key, result, after)
    ensures result == None <==> forall m :: m in db.messages ==> !Free(db, c, m)
    ensures result == None ==> after == db
    ensures result.Some? ==>
              var m := result.value;
              && Free(db, c, m) && (forall x :: x in db.messages && Free(db, c, x) ==> db.messages[m].createdAt <= db.messages[x].createdAt)
              && after == db.(messages := db.messages[m := db.messages[m].(
                                  holder := Some(worker.actor), claimedAt := Some(db.now), claimedKey := Some(worker.key),
                                  token := None, leaseEnd := None,
                                  log := db.messages[m].log + [Event(ClaimEvent, worker.actor, db.now, None)])])
  {
    assert forall m :: m in Queue(db, c) <==> Free(db, c, m);
  }

  datatype Worker = Worker(actor: Actor, key: Key)

  /** Successive drain calls, each by any worker, with no other writer; the clock may move between calls. */
  datatype Drain = Drain(dbs: seq<Db>, who: seq<Worker>, results: seq<Option<MessageId>>)

  ghost predicate IsDrain(d: Drain, c: ChannelId) {
    && |d.dbs| == |d.results| + 1 && |d.who| == |d.results|
    && (forall k: nat :: k < |d.results| ==> DrainAt(d, c, k))
  }

  ghost predicate DrainAt(d: Drain, c: ChannelId, k: nat)
    requires k < |d.results| == |d.who| && |d.dbs| == |d.results| + 1
  {
    && d.dbs[k].now <= d.dbs[k + 1].now
    && DrainStep(d.dbs[k], c, d.who[k].actor, d.who[k].key, d.results[k], d.dbs[k + 1].(now := d.dbs[k].now))
  }

  /** A drain call takes the handed message off the queue; time can only take expired ones off. */
  lemma QueueStep(db: Db, c: ChannelId, actor: Actor, key: Key, result: Option<MessageId>, after: Db)
    requires db.now <= after.now && DrainStep(db, c, actor, key, result, after.(now := db.now))
    ensures Queue(after, c) <= Queue(db, c)
    ensures result.None? ==> Queue(db, c) == {}
    ensures result.Some? ==> result.value in Queue(db, c) && result.value !in Queue(after, c)
    ensures forall m :: m in Queue(db, c) && m !in Queue(after, c) && result != Some(m) ==>
              m in after.messages && after.messages[m].expiresAt <= after.now
    ensures forall m :: m in db.messages ==> m in after.messages && after.messages[m].createdAt == db.messages[m].createdAt
                                             && after.messages[m].expiresAt == db.messages[m].expiresAt
  {
  }

  lemma {:induction false} QueueShrinks(d: Drain, c: ChannelId, j: nat, k: nat)
    requires IsDrain(d, c) && j <= k < |d.dbs|
    ensures Queue(d.dbs[k], c) <= Queue(d.dbs[j], c)
    ensures forall m :: m in d.dbs[j].messages ==>
              && m in d.dbs[k].messages && d.dbs[k].messages[m].createdAt == d.dbs[j].messages[m].createdAt
              && d.dbs[k].messages[m].expiresAt == d.dbs[j].messages[m].expiresAt
    ensures d.dbs[j].now <= d.dbs[k].now
    decreases k
  {
    if j < k {
      QueueShrinks(d, c, j, k - 1);
      assert DrainAt(d, c, k - 1);
      QueueStep(d.dbs[k - 1], c, d.who[k - 1].actor, d.who[k - 1].key, d.results[k - 1], d.dbs[k]);
    }
  }

  /** Whoever calls, messages are handed out oldest first, each at most once, and after the first null always null. */
  lemma DrainInOrder(d: Drain, c: ChannelId, j: nat, k: nat)
    requires IsDrain(d, c) && j < k < |d.results|
    requires DistinctTimes(d.dbs[0].messages, Queue(d.dbs[0], c))
    ensures d.results[j].None? ==> d.results[k].None?
    ensures d.results[k].Some? ==>
              var (early, late) := (d.results[j], d.results[k]);
              && early.Some? && early != late
              && early.value in d.dbs[0].messages && late.value in d.dbs[0].messages
              && d.dbs[0].messages[early.value].createdAt < d.dbs[0].messages[late.value].createdAt
  {
    assert DrainAt(d, c, j) && DrainAt(d, c, k);
    QueueStep(d.dbs[j], c, d.who[j].actor, d.who[j].key, d.results[j], d.dbs[j + 1]);
    QueueShrinks(d, c, 0, j);
    QueueShrinks(d, c, j + 1, k);
  }

  /** Nothing is passed over: whatever was queued at the start has been handed out, has expired, or is still queued. */
  lemma {:induction false} DrainMissesNothing(d: Drain, c: ChannelId, k: nat, m: MessageId)
    requires IsDrain(d, c) && k < |d.dbs| && m in Queue(d.dbs[0], c)
    ensures m in d.dbs[0].messages
    ensures m in Queue(d.dbs[k], c) || d.dbs[0].messages[m].expiresAt <= d.dbs[k].now
            || (exists j: nat :: j < k && d.results[j] == Some(m))
    decreases k
  {
    if k > 0 {
      DrainMissesNothing(d, c, k - 1, m);
      assert DrainAt(d, c, k - 1);
      QueueStep(d.dbs[k - 1], c, d.who[k - 1].actor, d.who[k - 1].key, d.results[k - 1], d.dbs[k]);
      QueueShrinks(d, c, 0, k);
    }
  }

  /** Each call that finds the queue non-empty shortens it. */
  lemma {:induction false} QueueLeft(d: Drain, c: ChannelId, k: nat)
    requires IsDrain(d, c) && k < |d.dbs|
    ensures |Queue(d.dbs[k], c)| <= if k < |Queue(d.dbs[0], c)| then |Queue(d.dbs[0], c)| - k else 0
    decreases k
  {
    if k > 0 {
      var (was, now) := (Queue(d.dbs[k - 1], c), Queue(d.dbs[k], c));
      QueueLeft(d, c, k - 1);
      assert DrainAt(d, c, k - 1);
      QueueStep(d.dbs[k - 1], c, d.who[k - 1].actor, d.who[k - 1].key, d.results[k - 1], d.dbs[k]);
      SubsetSize(now, if d.results[k - 1].Some? then was - {d.results[k - 1].value} else was);
    }
  }

  /** A queue of n messages is handed out in at most n calls: by then each has been handed to one caller, or has expired,
   *  and every call from the n-th on answers null. */
  lemma DrainEnds(d: Drain, c: ChannelId, k: nat)
    requires IsDrain(d, c) && |Queue(d.dbs[0], c)| <= k < |d.dbs|
    ensures k < |d.results| ==> d.results[k].None?
    ensures forall m :: m in Queue(d.dbs[0], c) ==>
              m in d.dbs[0].messages
              && (d.dbs[0].messages[m].expiresAt <= d.dbs[k].now || exists j: nat :: j < k && d.results[j] == Some(m))
  {
    QueueLeft(d, c, k);
    assert Queue(d.dbs[k], c) == {};
    if k < |d.results| { assert DrainAt(d, c, k); }
    forall m | m in Queue(d.dbs[0], c)
      ensures m in d.dbs[0].messages
              && (d.dbs[0].messages[m].expiresAt <= d.dbs[k].now || exists j: nat :: j < k && d.results[j] == Some(m))
    {
      DrainMissesNothing(d, c, k, m);
    }
  }
}
