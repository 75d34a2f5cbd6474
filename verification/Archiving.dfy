/** Archived at most once: exactly when, over every interleaving of retracts and cleanups; and the one fate of every
 *  message when requests run one at a time. */
module Archiving {
  import opened Common
  import opened Tables
  import opened Protocol
  import opened Lifecycle
  import AckSafety

  // ---------- who can still archive a message that has left ----------

  /** A retract or cleanup in flight that has read the message and will not be refused. */
  predicate Rereads(db: Db, q: Request, m: MessageId) {
    match q
    case AtRetractCheck(x, seen, allowed) => x == m && RetractRefusal(db, seen, allowed).None?
    case AtRetractWrite(x, _) => x == m
    case Cleaning(_, order, rows) => m in order && CanArchive(db, order, rows)
    case _ => false
  }

  ghost predicate Reread(w: World, m: MessageId) {
    exists r :: r in w.requests && Rereads(w.db, w.requests[r], m)
  }

  /** The message has left the table and nothing in flight can archive it again. */
  ghost predicate Sealed(w: World, m: MessageId) {
    m in PostsOf(w.history) && m !in w.db.messages && !Reread(w, m)
  }

  /** Channels are numbered upwards, and posts are made to channels that were there. */
  ghost predicate Numbered(w: World) {
    && (forall c :: c in w.db.channels ==> c < w.db.nextChannel)
    && (forall m :: m in PostsOf(w.history) ==> PostsOf(w.history)[m].channel < w.db.nextChannel)
  }

  /** No channel comes back. */
  ghost predicate NoReturn(w: World, next: World) {
    && w.db.nextChannel <= next.db.nextChannel
    && (forall c :: c in next.db.channels ==> if c < w.db.nextChannel then c in w.db.channels else c < next.db.nextChannel)
  }

  lemma NextNoReturn(w: World, l: Label)
    requires Numbered(w)
    ensures NoReturn(w, Next(w, l))
  {
    if !l.Do? && !Removing(l) { RequestsQuiet(w, l); }
    else if l.Do? && (l.op.Pulse? || l.op.GiveBack? || l.op.Acknowledge?) { ClaimOpsQuiet(w, l.op); }
  }

  lemma NextPosts(w: World, l: Label)
    ensures
      var (posts, next) := (PostsOf(w.history), Next(w, l));
      if l.Do? && l.op.PostMessage? && Post(w.db, l.op.post).1.Posted?
      then l.op.post.channel in w.db.channels
           && PostsOf(next.history) == posts[w.db.nextMessage := Inserted(w.db, l.op.post)[w.db.nextMessage]]
      else PostsOf(next.history) == posts
  {
    var next := Next(w, l);
    if l.CleanWrite? {
      CommitIs(w, l);
      if next.history != w.history { LifeSnoc(w.history, next.history[|w.history|], 0); }
    } else if l.RetractWrite? {
      if next.history != w.history { LifeSnoc(w.history, next.history[|w.history|], 0); }
    } else if !l.Do? {
      RequestsQuiet(w, l);
      QuietLife(w, next, 0);
    } else {
      PerformPosts(w, l.op);
    }
  }

  lemma PerformPosts(w: World, op: Op)
    ensures
      var (posts, next) := (PostsOf(w.history), Perform(w, op));
      if op.PostMessage? && Post(w.db, op.post).1.Posted?
      then op.post.channel in w.db.channels
           && PostsOf(next.history) == posts[w.db.nextMessage := Inserted(w.db, op.post)[w.db.nextMessage]]
      else PostsOf(next.history) == posts
  {
    if op.PostMessage? {
      if Post(w.db, op.post).1.Posted? { LifeSnoc(w.history, Entry(w.db.now, Posting(w.db, op.post)), 0); }
    } else if op.RemoveChannel? {
      if DeleteChannel(w.db, op.c, op.owner).1.ChannelDeleted? {
        LifeSnoc(w.history, Entry(w.db.now, Dropped(InChannel(w.db.messages, op.c))), 0);
      }
    } else if op.Pulse? || op.GiveBack? || op.Acknowledge? {
      ClaimOpsQuiet(w, op);
      QuietLife(w, Perform(w, op), 0);
    }
  }

  lemma NextNumbered(w: World, l: Label)
    requires Numbered(w)
    ensures Numbered(Next(w, l))
  {
    NextNoReturn(w, l);
    NextPosts(w, l);
  }

  ghost predicate Good(w: World) {
    Sound(w) && Numbered(w) && forall m :: Tracked(w, m)
  }

  lemma NextGood(w: World, l: Label)
    requires Good(w)
    ensures Good(Next(w, l))
  {
    NextSound(w, l);
    NextNumbered(w, l);
    forall m ensures Tracked(Next(w, l), m) { NextTracked(w, l, m); }
  }

  lemma {:induction false} RunGood(w: World, run: seq<Label>)
    requires Good(w)
    ensures Good(Exec(w, run))
  {
    if run != [] {
      RunGood(w, run[..|run| - 1]);
      NextGood(Exec(w, run[..|run| - 1]), run[|run| - 1]);
    }
  }

  lemma StartGood()
    ensures Good(START)
  {
  }

  /** A request that stays where it is does not come to reread. */
  lemma StillNoReread(w: World, next: World, q: Request, m: MessageId)
    requires Numbered(w) && NoReturn(w, next) && (forall x :: SawPost(q, PostsOf(w.history), x)) && ListsOnce(q)
    requires Rereads(next.db, q, m)
    ensures Rereads(w.db, q, m)
  {
    match q
    case AtRetractCheck(x, seen, allowed) => assert SawPost(q, PostsOf(w.history), x);
    case Cleaning(cutoff, order, rows) =>
      forall x | x in order && x in rows ensures rows[x].channel in w.db.channels {
        assert SawPost(q, PostsOf(w.history), x);
      }
    case _ =>
  }

  /** A request that moves does not come to read a message that is not there. */
  lemma MovedNoReread(w: World, l: Label, r: RequestId, m: MessageId)
    requires Sealed(w, m) && r in Next(w, l).requests && !(r in w.requests && w.requests[r] == Next(w, l).requests[r])
    ensures !Rereads(Next(w, l).db, Next(w, l).requests[r], m)
  {
    if l.Do? { PerformRequests(w, l.op); }
    else if l.RetractCheck? && r == l.r && r in w.requests { assert !Rereads(w.db, w.requests[r], m); }
  }

  lemma SealedRows(w: World, l: Label, m: MessageId)
    requires Good(w) && Sealed(w, m)
    ensures LifeOf(Next(w, l).history, m).rows == LifeOf(w.history, m).rows
  {
    if Commits(w, l) {
      var q := w.requests[l.r];
      assert !Rereads(w.db, q, m) && ListsOnce(q);
      CommitIs(w, l);
      RowsListed(q.rows, w.db.messages, q.order, w.db.now, m);
      LifeSnoc(w.history, Entry(w.db.now, Summary(w.db, q.cutoff, q.order, q.rows)), m);
    } else if l.CleanWrite? {
      CommitIs(w, l);
    } else if l.RetractWrite? {
      RetractEntry(w, l.r, m);
      if l.r in w.requests { assert !Rereads(w.db, w.requests[l.r], m); }
    } else if l.Do? {
      PerformEntry(w, l.op, m);
    } else {
      RequestsQuiet(w, l);
      QuietLife(w, Next(w, l), m);
    }
  }

  lemma NextSealed(w: World, l: Label, m: MessageId)
    requires Good(w) && Sealed(w, m)
    ensures Sealed(Next(w, l), m)
  {
    var next := Next(w, l);
    NextNoReturn(w, l);
    NextPosts(w, l);
    NextGood(w, l);
    StaysGone(w, l, m);
    forall r | r in next.requests ensures !Rereads(next.db, next.requests[r], m) {
      var q := next.requests[r];
      if r in w.requests && w.requests[r] == q {
        assert !Rereads(w.db, q, m) && ListsOnce(q);
        forall x ensures SawPost(q, PostsOf(w.history), x) { assert Tracked(w, x); }
        if Rereads(next.db, q, m) { StillNoReread(w, next, q, m); }
      } else {
        MovedNoReread(w, l, r, m);
      }
    }
  }

  /** Identifiers are not used again. */
  lemma StaysGone(w: World, l: Label, m: MessageId)
    requires Good(w) && m in PostsOf(w.history) && m !in w.db.messages
    ensures m !in Next(w, l).db.messages
  {
    assert Tracked(w, m);
    if !(l.Do? && l.op.PostMessage?) { NextShrinks(w, l); }
  }

  lemma {:induction false} RunSealed(w: World, run: seq<Label>, m: MessageId)
    requires Good(w) && Sealed(w, m)
    ensures Sealed(Exec(w, run), m) && LifeOf(Exec(w, run).history, m).rows == LifeOf(w.history, m).rows
  {
    if run != [] {
      var most := run[..|run| - 1];
      RunSealed(w, most, m);
      RunGood(w, most);
      SealedRows(Exec(w, most), run[|run| - 1], m);
      NextSealed(Exec(w, most), run[|run| - 1], m);
    }
  }

  /** Some continuation writes another archive row for the message. */
  ghost predicate ArchivesAgain(w: World, m: MessageId, run: seq<Label>) {
    LifeOf(Exec(w, run).history, m).rows > LifeOf(w.history, m).rows
  }

  lemma WriteArchives(w: World, r: RequestId, m: MessageId)
    requires r in w.requests && w.requests[r].AtRetractWrite? && w.requests[r].m == m
    ensures LifeOf(Next(w, RetractWrite(r)).history, m).rows == LifeOf(w.history, m).rows + 1
  {
    RetractEntry(w, r, m);
  }

  lemma CleanArchives(w: World, r: RequestId, m: MessageId)
    requires Good(w) && r in w.requests && w.requests[r].Cleaning? && Rereads(w.db, w.requests[r], m)
    ensures LifeOf(Next(w, CleanWrite(r, false)).history, m).rows == LifeOf(w.history, m).rows + 1
  {
    var q := w.requests[r];
    CommitIs(w, CleanWrite(r, false));
    assert ListsOnce(q);
    RowsListed(q.rows, w.db.messages, q.order, w.db.now, m);
    LifeSnoc(w.history, Entry(w.db.now, Summary(w.db, q.cutoff, q.order, q.rows)), m);
  }

  lemma RereadArchives(w: World, r: RequestId, m: MessageId) returns (run: seq<Label>)
    requires Good(w) && r in w.requests && Rereads(w.db, w.requests[r], m)
    ensures ArchivesAgain(w, m, run)
  {
    if w.requests[r].AtRetractWrite? {
      run := [RetractWrite(r)];
      WriteArchives(w, r, m);
      ExecOne(w, RetractWrite(r));
    } else if w.requests[r].Cleaning? {
      run := [CleanWrite(r, false)];
      CleanArchives(w, r, m);
      ExecOne(w, CleanWrite(r, false));
    } else {
      run := [RetractCheck(r), RetractWrite(r)];
      var next := Next(w, RetractCheck(r));
      assert next == Answered(w, r, AtRetractWrite(m, w.requests[r].seen));
      WriteArchives(next, r, m);
      ExecTwo(w, RetractCheck(r), RetractWrite(r));
    }
  }

  /** Exactly when a message that has left the table can be archived (again): a retract or cleanup that read it is still
   *  in flight and will not be refused. */
  lemma ArchivedAgainIff(run: seq<Label>, m: MessageId)
    requires m < Exec(START, run).db.nextMessage && m !in Exec(START, run).db.messages
    ensures (exists more :: ArchivesAgain(Exec(START, run), m, more)) <==> Reread(Exec(START, run), m)
  {
    var w := Exec(START, run);
    StartGood();
    RunGood(START, run);
    assert Tracked(w, m);
    if Reread(w, m) {
      var r :| r in w.requests && Rereads(w.db, w.requests[r], m);
      var more := RereadArchives(w, r, m);
    } else {
      forall more ensures !ArchivesAgain(w, m, more) { RunSealed(w, more, m); }
    }
  }

  // ---------- one fate for good ----------

  /** How many of the five fates a message has: live, archived or purged (once for each row), trimmed, dropped. */
  ghost function Fates(w: World, m: MessageId): nat {
    var f := LifeOf(w.history, m);
    Lifecycle.One(m in w.db.messages) + RowsOf(w.db.audit, m) + f.purged + f.trimmed + f.dropped
  }

  /** Nothing a life counts is ever taken back. */
  lemma {:induction false} LifeGrows(h: seq<Entry>, k: nat, m: MessageId)
    requires k <= |h|
    ensures
      var (f, g) := (LifeOf(h[..k], m), LifeOf(h, m));
      f.trimmed <= g.trimmed && f.dropped <= g.dropped && f.taken <= g.taken && f.rows <= g.rows
  {
    if k == |h| {
      assert h[..k] == h;
    } else {
      LifeGrows(h[..|h| - 1], k, m);
      assert h[..|h| - 1][..k] == h[..k];
    }
  }

  lemma {:induction false} RunStaysGone(w: World, run: seq<Label>, m: MessageId)
    requires Good(w) && m in PostsOf(w.history) && m !in w.db.messages
    ensures var end := Exec(w, run); Good(end) && m in PostsOf(end.history) && m !in end.db.messages
  {
    RunGood(w, run);
    if run != [] {
      var most := run[..|run| - 1];
      RunStaysGone(w, most, m);
      StaysGone(Exec(w, most), run[|run| - 1], m);
      NextPosts(Exec(w, most), run[|run| - 1]);
    }
  }

  /** A message that has left gains a fate with every archive row written for it, and with nothing else. */
  lemma FatesAreRows(w: World, more: seq<Label>, m: MessageId)
    requires Good(w) && m in PostsOf(w.history) && m !in w.db.messages
    ensures
      var end := Exec(w, more);
      var (f, g) := (LifeOf(w.history, m), LifeOf(end.history, m));
      f.rows <= g.rows && Fates(end, m) + f.rows == Fates(w, m) + g.rows
  {
    var end := Exec(w, more);
    RunStaysGone(w, more, m);
    HistoryGrows(w, more);
    LifeGrows(end.history, |w.history|, m);
    assert Tracked(w, m) && Tracked(end, m);
  }

  /** A message that has left the table, with one fate so far, keeps exactly one in every continuation if and only if no
   *  retract or cleanup that read it is still in flight and will not be refused. */
  lemma OneFateIff(run: seq<Label>, m: MessageId)
    requires m < Exec(START, run).db.nextMessage && m !in Exec(START, run).db.messages && Fates(Exec(START, run), m) == 1
    ensures (forall more :: Fates(Exec(START, run + more), m) == 1) <==> !Reread(Exec(START, run), m)
  {
    var w := Exec(START, run);
    StartGood();
    RunGood(START, run);
    assert Tracked(w, m);
    if Reread(w, m) {
      var r :| r in w.requests && Rereads(w.db, w.requests[r], m);
      var more := RereadArchives(w, r, m);
      FatesAreRows(w, more, m);
      ExecAppend(START, run, more);
      assert Fates(Exec(START, run + more), m) > 1;
    } else {
      forall more ensures Fates(Exec(START, run + more), m) == 1 {
        RunSealed(w, more, m);
        FatesAreRows(w, more, m);
        ExecAppend(START, run, more);
      }
    }
  }

  // ---------- who can retract a message under its holder ----------

  ghost predicate Held(w: World, m: MessageId) { m in w.db.messages && w.db.messages[m].holder.Some? }

  /** A retract in flight that has read the message and will not be refused. */
  ghost predicate Retracting(w: World, m: MessageId) {
    exists r :: r in w.requests && !w.requests[r].Cleaning? && Rereads(w.db, w.requests[r], m)
  }

  /** The run ends with a retract that removes the message, held in every world before. */
  ghost predicate Takes(w: World, run: seq<Label>, m: MessageId) {
    && run != [] && run[|run| - 1].RetractWrite? && m !in Exec(w, run).db.messages
    && HeldThrough(w, run, m)
  }

  /** While a message is held, no request that moves comes to retract it. */
  lemma MovedNotRetracting(w: World, l: Label, r: RequestId, m: MessageId)
    requires Held(w, m) && !Retracting(w, m)
    requires r in Next(w, l).requests && !(r in w.requests && w.requests[r] == Next(w, l).requests[r])
    ensures Next(w, l).requests[r].Cleaning? || !Rereads(Next(w, l).db, Next(w, l).requests[r], m)
  {
    if l.Do? { PerformRequests(w, l.op); }
    else if l.RetractCheck? && r == l.r && r in w.requests { assert !Rereads(w.db, w.requests[r], m); }
  }

  lemma StaysSafe(w: World, l: Label, m: MessageId)
    requires Good(w) && Held(w, m) && !Retracting(w, m)
    ensures !Retracting(Next(w, l), m)
  {
    var next := Next(w, l);
    NextNoReturn(w, l);
    forall r | r in next.requests && !next.requests[r].Cleaning? ensures !Rereads(next.db, next.requests[r], m) {
      var q := next.requests[r];
      if r in w.requests && w.requests[r] == q {
        assert !Rereads(w.db, q, m) && ListsOnce(q);
        forall x ensures SawPost(q, PostsOf(w.history), x) { assert Tracked(w, x); }
        if Rereads(next.db, q, m) { StillNoReread(w, next, q, m); }
      } else {
        MovedNotRetracting(w, l, r, m);
      }
    }
  }

  ghost predicate HeldThrough(w: World, run: seq<Label>, m: MessageId) {
    forall k :: 0 <= k < |run| ==> Held(Exec(w, run[..k]), m)
  }

  lemma HeldPrefix(w: World, run: seq<Label>, m: MessageId)
    requires run != [] && HeldThrough(w, run, m)
    ensures HeldThrough(w, run[..|run| - 1], m) && Held(Exec(w, run[..|run| - 1]), m)
  {
    var last := |run| - 1;
    forall k | 0 <= k < last ensures Held(Exec(w, run[..last][..k]), m) { assert run[..last][..k] == run[..k]; }
  }

  lemma {:induction false} HeldSafe(w: World, run: seq<Label>, m: MessageId)
    requires Good(w) && !Retracting(w, m) && HeldThrough(w, run, m)
    ensures !Retracting(Exec(w, run), m)
  {
    if run != [] {
      var most := run[..|run| - 1];
      HeldPrefix(w, run, m);
      HeldSafe(w, most, m);
      RunGood(w, most);
      StaysSafe(Exec(w, most), run[|run| - 1], m);
    }
  }

  /** A retract's write removes only the message it has read. */
  lemma RetractRemoves(w: World, r: RequestId, m: MessageId)
    requires m in w.db.messages && m !in Next(w, RetractWrite(r)).db.messages
    ensures Retracting(w, m)
  {
    assert r in w.requests && w.requests[r].AtRetractWrite? && w.requests[r].m == m;
  }

  lemma SafeNotTaken(w: World, run: seq<Label>, m: MessageId)
    requires Good(w) && !Retracting(w, m)
    ensures !Takes(w, run, m)
  {
    if Takes(w, run, m) {
      var most := run[..|run| - 1];
      HeldPrefix(w, run, m);
      HeldSafe(w, most, m);
      RetractRemoves(Exec(w, most), run[|run| - 1].r, m);
    }
  }

  lemma RetractCarriedOut(w: World, r: RequestId, m: MessageId) returns (run: seq<Label>)
    requires Held(w, m) && r in w.requests && !w.requests[r].Cleaning? && Rereads(w.db, w.requests[r], m)
    ensures Takes(w, run, m)
  {
    if w.requests[r].AtRetractWrite? {
      run := [RetractWrite(r)];
      ExecOne(w, RetractWrite(r));
    } else {
      run := [RetractCheck(r), RetractWrite(r)];
      var next := Next(w, RetractCheck(r));
      assert next == Answered(w, r, AtRetractWrite(m, w.requests[r].seen));
      ExecTwo(w, RetractCheck(r), RetractWrite(r));
      ExecOne(w, RetractCheck(r));
      assert run[..1] == [RetractCheck(r)];
    }
    assert run[..0] == [];
  }

  /** Exactly when a held message can be retracted under its holder: a retract that read it unclaimed is still in flight
   *  and will not be refused. Otherwise "cannot retract a message that has already been claimed" holds in every
   *  continuation, for as long as the message is held. */
  lemma HeldTakenIff(run: seq<Label>, m: MessageId)
    requires Held(Exec(START, run), m)
    ensures (exists more :: Takes(Exec(START, run), more, m)) <==> Retracting(Exec(START, run), m)
  {
    var w := Exec(START, run);
    StartGood();
    RunGood(START, run);
    if Retracting(w, m) {
      var r :| r in w.requests && !w.requests[r].Cleaning? && Rereads(w.db, w.requests[r], m);
      var more := RetractCarriedOut(w, r, m);
    } else {
      forall more ensures !Takes(w, more, m) { SafeNotTaken(w, more, m); }
    }
  }

  /** A message claimed when no request is between two of its steps is never retracted under its holder, whatever
   *  interleaving follows; in particular not when requests never overlap. */
  lemma HeldKeptAfterWhole(xs: seq<Whole>, more: seq<Label>, m: MessageId)
    ensures !Takes(Exec(START, Flatten(xs)), more, m)
  {
    StartGood();
    RunGood(START, Flatten(xs));
    AllSettled(xs);
    SafeNotTaken(Exec(START, Flatten(xs)), more, m);
  }

  // ---------- one request at a time: one fate ----------

  lemma CalmStep(w: World, l: Label, m: MessageId)
    requires !Removing(l)
    ensures
      var (f, g) := (LifeOf(w.history, m), LifeOf(Next(w, l).history, m));
      g.lost == f.lost && g.strays == f.strays && g.rows == f.rows
  {
    if l.Do? {
      PerformEntry(w, l.op, m);
    } else {
      RequestsQuiet(w, l);
      QuietLife(w, Next(w, l), m);
    }
  }

  lemma {:induction false} CalmRun(w: World, run: seq<Label>, m: MessageId)
    requires forall l :: l in run ==> !Removing(l)
    ensures
      var (f, g) := (LifeOf(w.history, m), LifeOf(Exec(w, run).history, m));
      g.lost == f.lost && g.strays == f.strays && g.rows == f.rows
  {
    if run != [] {
      var most := run[..|run| - 1];
      forall l | l in most ensures !Removing(l) { assert l in run; }
      CalmRun(w, most, m);
      assert run[|run| - 1] in run;
      CalmStep(Exec(w, most), run[|run| - 1], m);
    }
  }

  /** A retract that nothing interrupts archives what it deletes. */
  lemma TakeBackOnce(w: World, r: RequestId, m: MessageId, allowed: bool, x: MessageId)
    requires Settled(w)
    ensures
      var (f, g) := (LifeOf(w.history, x), LifeOf(Exec(w, Steps(TakeBack(r, m, allowed))).history, x));
      g.strays == f.strays && g.lost == f.lost
  {
    if r in w.requests {
      RetractBlocked(w, r, m, allowed);
    } else {
      RetractIsWhole(w, r, m, allowed);
      if Retract(w.db, m, allowed).1.Retracted? {
        LifeSnoc(w.history, Entry(w.db.now, Withdrawn(Archive(m, w.db.messages[m], [], w.db.now), {m})), x);
      }
    }
  }

  /** So does a cleanup. */
  lemma CleanUpOnce(w: World, r: RequestId, order: seq<MessageId>, fault: bool, x: MessageId)
    requires Settled(w)
    ensures
      var (f, g) := (LifeOf(w.history, x), LifeOf(Exec(w, Steps(CleanUp(r, order, fault))).history, x));
      g.strays == f.strays && g.lost == f.lost
  {
    if r in w.requests || !ExpiredListing(w.db.messages, w.db.now, order) {
      CleanBlocked(w, r, order, fault);
    } else {
      var end := CleanIsWhole(w, r, order, fault);
      if end.history != w.history {
        forall y | y in order ensures y in w.db.messages { assert y in Outlived(w.db.messages, w.db.now); }
        RowsListed(w.db.messages, w.db.messages, order, w.db.now, x);
        LifeSnoc(w.history, Entry(w.db.now, Summary(w.db, w.db.now, order, w.db.messages)), x);
      }
    }
  }

  lemma WholeOnce(w: World, x: Whole, m: MessageId)
    requires Settled(w)
    ensures
      var (f, g) := (LifeOf(w.history, m), LifeOf(Exec(w, Steps(x)).history, m));
      g.strays == f.strays && g.lost == f.lost
  {
    match x
    case One(op) => CalmRun(w, Steps(x), m);
    case Claim(r, req) => CalmRun(w, Steps(x), m);
    case Sweep(r, order) =>
      InRepeat(SweepNext(r), |order| + 1);
      CalmRun(w, Steps(x), m);
    case TakeBack(r, y, allowed) => TakeBackOnce(w, r, y, allowed, m);
    case CleanUp(r, order, fault) => CleanUpOnce(w, r, order, fault, m);
  }

  lemma {:induction false} AllOnce(xs: seq<Whole>, m: MessageId)
    ensures var f := LifeOf(Exec(START, Flatten(xs)).history, m); f.strays == 0 && f.lost == 0
  {
    if xs != [] {
      var most := xs[..|xs| - 1];
      AllOnce(most, m);
      AllSettled(most);
      WholeOnce(Exec(START, Flatten(most)), xs[|xs| - 1], m);
      ExecAppend(START, Flatten(most), Steps(xs[|xs| - 1]));
    }
  }

  /** With requests one at a time every posted message is in exactly one of five places: live, archived (once, as
   *  posted), purged from the archive, trimmed by the ring buffer, or dropped with its channel. */
  lemma OneFate(xs: seq<Whole>, m: MessageId)
    requires m < Exec(START, Flatten(xs)).db.nextMessage
    ensures
      var w := Exec(START, Flatten(xs));
      var f := LifeOf(w.history, m);
      && Lifecycle.One(m in w.db.messages) + RowsOf(w.db.audit, m) + f.purged + f.trimmed + f.dropped == 1
      && m in PostsOf(w.history)
      && (m in w.db.messages ==> SamePost(w.db.messages[m], PostsOf(w.history)[m]))
      && (forall a :: a in w.db.audit && a.id == m ==> Faithful(a, PostsOf(w.history)[m]))
  {
    EveryFate(Flatten(xs), m);
    AllOnce(xs, m);
  }

  /** In any interleaving, with positive TTLs, a message has one fate more than rows were written after it had left. */
  lemma FatesAndStrays(run: seq<Label>, m: MessageId)
    requires m < Exec(START, run).db.nextMessage && PositiveTtl(run)
    ensures Fates(Exec(START, run), m) == 1 + LifeOf(Exec(START, run).history, m).strays
  {
    EveryFate(run, m);
    RunComplete(run, m);
  }

  // ---------- conservation ----------

  datatype Totals = Totals(trimmed: nat, dropped: nat, taken: nat, rows: nat, purged: nat)

  function Tally(t: Totals, e: What): Totals {
    match e
    case Appeared(_, _, trimmed) => t.(trimmed := t.trimmed + |trimmed|)
    case Dropped(ms) => t.(dropped := t.dropped + |ms|)
    case Withdrawn(_, removed) => t.(taken := t.taken + |removed|, rows := t.rows + 1)
    case Cleaned(_, _, _, removed, rows, purged) =>
      t.(taken := t.taken + |removed|, rows := t.rows + |rows|, purged := t.purged + |purged|)
    case _ => t
  }

  function TotalsOf(h: seq<Entry>): Totals {
    if h == [] then Totals(0, 0, 0, 0, 0) else Tally(TotalsOf(h[..|h| - 1]), h[|h| - 1].what)
  }

  lemma TotalsSnoc(h: seq<Entry>, e: Entry)
    ensures TotalsOf(h + [e]) == Tally(TotalsOf(h), e.what)
  {
    assert (h + [e])[..|h + [e]| - 1] == h;
  }

  ghost predicate Balanced(db: Db, t: Totals) {
    && db.nextMessage == |db.messages| + t.trimmed + t.dropped + t.taken
    && t.rows == |db.audit| + t.purged
  }

  lemma MapSize(ms: MessageTable, after: MessageTable, gone: set<MessageId>)
    requires after.Keys == ms.Keys - gone && gone <= ms.Keys
    ensures |after| == |ms| - |gone|
  {
    assert ms.Keys == after.Keys + gone && after.Keys !! gone;
    assert |ms.Keys| == |ms| && |after.Keys| == |after|;
  }

  lemma PostRows(db: Db, post: PostRequest)
    requires Ordered(db) && Post(db, post).1.Posted?
    ensures
      var (before, after) := (Inserted(db, post), Post(db, post).0.messages);
      after.Keys == before.Keys - Discarded(InChannel(before, post.channel), db.channels[post.channel].maxMessages)
  {
    var (before, after) := (Inserted(db, post), Post(db, post).0.messages);
    var (c, cap) := (post.channel, db.channels[post.channel].maxMessages);
    if cap.Some? { TrimKeepsNewest(db, post, cap.value); }
    forall m ensures m in after <==> m in before && m !in Discarded(InChannel(before, c), cap) {
      assert m in before && before[m].channel == c <==> m in InChannel(before, c);
      assert m in after && after[m].channel == c <==> m in InChannel(after, c);
    }
  }

  /** One row comes, some go. */
  lemma TurnOver(ms: MessageTable, before: MessageTable, after: MessageTable, id: MessageId, gone: set<MessageId>)
    requires id !in ms && before.Keys == ms.Keys + {id} && after.Keys == before.Keys - gone && gone <= before.Keys
    ensures |after| + |gone| == |ms| + 1
  {
    MapSize(before, after, gone);
    MapSize(before, ms, {id});
  }

  lemma PostTurnOver(db: Db, post: PostRequest) returns (before: MessageTable, after: MessageTable, gone: set<MessageId>)
    requires Ordered(db) && Post(db, post).1.Posted?
    ensures after == Post(db, post).0.messages && gone == Posting(db, post).trimmed
    ensures before.Keys == db.messages.Keys + {db.nextMessage} && after.Keys == before.Keys - gone && gone <= before.Keys
  {
    PostRows(db, post);
    before, after := Inserted(db, post), Post(db, post).0.messages;
    gone := Discarded(InChannel(before, post.channel), db.channels[post.channel].maxMessages);
  }

  lemma PostBalanced(db: Db, t: Totals, post: PostRequest)
    requires Balanced(db, t) && Ordered(db) && Post(db, post).1.Posted?
    ensures Balanced(Post(db, post).0, Tally(t, Posting(db, post)))
  {
    var before, after, gone := PostTurnOver(db, post);
    TurnOver(db.messages, before, after, db.nextMessage, gone);
  }

  lemma DropBalanced(db: Db, t: Totals, c: ChannelId, owner: bool)
    requires Balanced(db, t) && DeleteChannel(db, c, owner).1.ChannelDeleted?
    ensures Balanced(DeleteChannel(db, c, owner).0, Tally(t, Dropped(InChannel(db.messages, c))))
  {
    MapSize(db.messages, Without(db.messages, InChannel(db.messages, c)), InChannel(db.messages, c));
  }

  lemma RetractBalanced(db: Db, t: Totals, m: MessageId, seen: Message)
    requires Balanced(db, t)
    ensures Balanced(RetractUpdate(db, m, seen), Tally(t, Retraction(db, m, seen)))
  {
    MapSize(db.messages, Without(db.messages, {m}), if m in db.messages then {m} else {});
  }

  lemma CleanBalanced(db: Db, t: Totals, cutoff: Time, order: seq<MessageId>, seen: MessageTable)
    requires Balanced(db, t)
    ensures Balanced(CleanupUpdate(db, cutoff, order, seen), Tally(t, Summary(db, cutoff, order, seen)))
  {
    MapSize(db.messages, CleanMessages(db.messages, cutoff), Outlived(db.messages, cutoff));
    var all := db.audit + ArchiveAll(seen, db.messages, order, db.now);
    RowsSplit(all, a => Retained(db.channels, db.now, a), a => !Retained(db.channels, db.now, a), 0);
  }

  lemma QuietBalanced(w: World, next: World)
    requires Balanced(w.db, TotalsOf(w.history)) && Quiet(w, next)
    ensures Balanced(next.db, TotalsOf(next.history))
  {
    if next.history != w.history { TotalsSnoc(w.history, next.history[|w.history|]); }
    MapSize(w.db.messages, next.db.messages, {});
  }

  lemma PerformBalanced(w: World, op: Op)
    requires Balanced(w.db, TotalsOf(w.history)) && Ordered(w.db)
    ensures Balanced(Perform(w, op).db, TotalsOf(Perform(w, op).history))
  {
    if op.PostMessage? {
      if Post(w.db, op.post).1.Posted? {
        PostBalanced(w.db, TotalsOf(w.history), op.post);
        TotalsSnoc(w.history, Entry(w.db.now, Posting(w.db, op.post)));
      }
    } else if op.RemoveChannel? {
      if DeleteChannel(w.db, op.c, op.owner).1.ChannelDeleted? {
        DropBalanced(w.db, TotalsOf(w.history), op.c, op.owner);
        TotalsSnoc(w.history, Entry(w.db.now, Dropped(InChannel(w.db.messages, op.c))));
      }
    } else if op.Pulse? || op.GiveBack? || op.Acknowledge? {
      ClaimOpsQuiet(w, op);
      QuietBalanced(w, Perform(w, op));
    }
  }

  lemma NextBalanced(w: World, l: Label)
    requires Balanced(w.db, TotalsOf(w.history)) && Ordered(w.db)
    ensures Balanced(Next(w, l).db, TotalsOf(Next(w, l).history))
  {
    if l.Do? {
      PerformBalanced(w, l.op);
    } else if l.CleanWrite? {
      CommitIs(w, l);
      if Commits(w, l) {
        var q := w.requests[l.r];
        CleanBalanced(w.db, TotalsOf(w.history), q.cutoff, q.order, q.rows);
        TotalsSnoc(w.history, Entry(w.db.now, Summary(w.db, q.cutoff, q.order, q.rows)));
      }
    } else if l.RetractWrite? {
      if l.r in w.requests && w.requests[l.r].AtRetractWrite? {
        var q := w.requests[l.r];
        RetractBalanced(w.db, TotalsOf(w.history), q.m, q.seen);
        TotalsSnoc(w.history, Entry(w.db.now, Retraction(w.db, q.m, q.seen)));
      }
    } else {
      RequestsQuiet(w, l);
      QuietBalanced(w, Next(w, l));
    }
  }

  /** Conservation, in every interleaving: every post is live, trimmed, dropped or taken by a retract or cleanup, and
   *  every archive row written is in the archive or purged. */
  lemma {:induction false} Conservation(run: seq<Label>)
    ensures
      var w := Exec(START, run);
      var t := TotalsOf(w.history);
      && w.db.nextMessage == |w.db.messages| + t.trimmed + t.dropped + t.taken
      && t.rows == |w.db.audit| + t.purged
  {
    if run != [] {
      Conservation(run[..|run| - 1]);
      RunOrdered(run[..|run| - 1]);
      NextBalanced(Exec(START, run[..|run| - 1]), run[|run| - 1]);
    }
  }

  /** Archive rows written and DELETEs that found their row advance together. */
  predicate Even(t: Totals) { t.rows == t.taken }

  lemma QuietTotals(w: World, next: World)
    requires Quiet(w, next)
    ensures TotalsOf(next.history) == TotalsOf(w.history)
  {
    if next.history != w.history { TotalsSnoc(w.history, next.history[|w.history|]); }
  }

  lemma PerformTotal(w: World, op: Op)
    requires Even(TotalsOf(w.history))
    ensures Even(TotalsOf(Perform(w, op).history))
  {
    var next := Perform(w, op);
    if op.Pulse? || op.GiveBack? || op.Acknowledge? {
      ClaimOpsQuiet(w, op);
      QuietTotals(w, next);
    } else if next.history != w.history {
      TotalsSnoc(w.history, next.history[|w.history|]);
    }
  }

  lemma CalmTotal(w: World, l: Label)
    requires Even(TotalsOf(w.history)) && !Removing(l)
    ensures Even(TotalsOf(Next(w, l).history))
  {
    if l.Do? {
      PerformTotal(w, l.op);
    } else {
      RequestsQuiet(w, l);
      QuietTotals(w, Next(w, l));
    }
  }

  lemma {:induction false} CalmTotals(w: World, run: seq<Label>)
    requires Even(TotalsOf(w.history)) && forall l :: l in run ==> !Removing(l)
    ensures Even(TotalsOf(Exec(w, run).history))
  {
    if run != [] {
      var (most, l) := (run[..|run| - 1], run[|run| - 1]);
      forall x | x in most ensures !Removing(x) { assert x in run; }
      CalmTotals(w, most);
      assert l in run;
      CalmTotal(Exec(w, most), l);
    }
  }

  /** One archive row with the one DELETE that found it leaves them level. */
  lemma EvenAfter(h: seq<Entry>, after: seq<Entry>, m: MessageId)
    requires Even(TotalsOf(h))
    requires after != h ==> exists wall, row :: after == h + [Entry(wall, Withdrawn(row, {m}))]
    ensures Even(TotalsOf(after))
  {
    if after != h {
      var wall, row :| after == h + [Entry(wall, Withdrawn(row, {m}))];
      TotalsSnoc(h, Entry(wall, Withdrawn(row, {m})));
    }
  }

  lemma TakeBackEven(w: World, r: RequestId, m: MessageId, allowed: bool)
    requires Settled(w) && Even(TotalsOf(w.history))
    ensures Even(TotalsOf(Exec(w, Steps(TakeBack(r, m, allowed))).history))
  {
    if r in w.requests {
      RetractBlocked(w, r, m, allowed);
    } else {
      RetractIsWhole(w, r, m, allowed);
      EvenAfter(w.history, Exec(w, Steps(TakeBack(r, m, allowed))).history, m);
    }
  }

  /** So does a cleanup that archives and deletes one listing. */
  lemma SummaryEven(h: seq<Entry>, db: Db, order: seq<MessageId>)
    requires Even(TotalsOf(h)) && ExpiredListing(db.messages, db.now, order)
    ensures Even(TotalsOf(h + [Entry(db.now, Summary(db, db.now, order, db.messages))]))
  {
    forall y | y in order ensures y in db.messages { assert y in Outlived(db.messages, db.now); }
    RowsListed(db.messages, db.messages, order, db.now, 0);
    ListingSize(order, Outlived(db.messages, db.now));
    TotalsSnoc(h, Entry(db.now, Summary(db, db.now, order, db.messages)));
  }

  lemma CleanUpEven(w: World, r: RequestId, order: seq<MessageId>, fault: bool)
    requires Settled(w) && Even(TotalsOf(w.history))
    ensures Even(TotalsOf(Exec(w, Steps(CleanUp(r, order, fault))).history))
  {
    if r in w.requests || !ExpiredListing(w.db.messages, w.db.now, order) {
      CleanBlocked(w, r, order, fault);
    } else {
      var end := CleanIsWhole(w, r, order, fault);
      SummaryEven(w.history, w.db, order);
    }
  }

  lemma {:induction false} AllEven(xs: seq<Whole>)
    ensures Even(TotalsOf(Exec(START, Flatten(xs)).history))
  {
    if xs != [] {
      var (most, x) := (xs[..|xs| - 1], xs[|xs| - 1]);
      var w := Exec(START, Flatten(most));
      AllEven(most);
      AllSettled(most);
      ExecAppend(START, Flatten(most), Steps(x));
      match x
      case TakeBack(r, m, allowed) => TakeBackEven(w, r, m, allowed);
      case CleanUp(r, order, fault) => CleanUpEven(w, r, order, fault);
      case Sweep(r, order) =>
        InRepeat(SweepNext(r), |order| + 1);
        CalmTotals(w, Steps(x));
      case _ => CalmTotals(w, Steps(x));
    }
  }

  /** With requests one at a time the five places add up to the posts. */
  lemma ConservationOneAtATime(xs: seq<Whole>)
    ensures
      var w := Exec(START, Flatten(xs));
      var t := TotalsOf(w.history);
      w.db.nextMessage == |w.db.messages| + |w.db.audit| + t.purged + t.trimmed + t.dropped
  {
    Conservation(Flatten(xs));
    AllEven(xs);
  }

  // ---------- the counts of a cleanup ----------

  /** A listing that covers what is deleted is as long as that if and only if everything on it is still there. */
  lemma ListedIff(db: Db, cutoff: Time, order: seq<MessageId>)
    requires forall i, j :: 0 <= i < j < |order| ==> order[i] != order[j]
    requires forall m :: m in Outlived(db.messages, cutoff) ==> m in order
    requires forall m :: m in order && m in db.messages ==> m in Outlived(db.messages, cutoff)
    ensures |Outlived(db.messages, cutoff)| <= |order|
    ensures |Outlived(db.messages, cutoff)| == |order| <==> forall m :: m in order ==> m in db.messages
  {
    var (listed, gone) := (Listed(order), Outlived(db.messages, cutoff));
    ListingSize(order, listed);
    SubsetSize(gone, listed);
    if forall m :: m in order ==> m in db.messages { assert gone == listed; }
  }

  function Listed(order: seq<MessageId>): set<MessageId> { set m | m in order }

  lemma ListedGone(w: World, q: Request)
    requires forall m :: Tracked(w, m)
    requires q.Cleaning? && forall m :: SawPost(q, PostsOf(w.history), m)
    ensures forall m :: m in q.order && m in w.db.messages ==> m in Outlived(w.db.messages, q.cutoff)
  {
    forall m | m in q.order && m in w.db.messages ensures m in Outlived(w.db.messages, q.cutoff) {
      assert Tracked(w, m) && SawPost(q, PostsOf(w.history), m);
    }
  }

  /** A cleanup reports as many rows archived as deleted if and only if everything it listed is still there. */
  lemma CountsAgreeIff(run: seq<Label>, l: Label)
    requires PositiveTtl(run) && Commits(Exec(START, run), l)
    ensures
      var (w, order) := (Exec(START, run), Exec(START, run).requests[l.r].order);
      var n := |Outlived(w.db.messages, w.requests[l.r].cutoff)|;
      && Pending(Next(w, l), l.r) == Some(CleanDone(|order|, n)) && n <= |order|
      && (|order| == n <==> forall m :: m in order ==> m in w.db.messages)
  {
    var w := Exec(START, run);
    var q := w.requests[l.r];
    Reachable(run);
    RunComplete(run, 0);
    forall m ensures SawPost(q, PostsOf(w.history), m) { assert Tracked(w, m); }
    assert CompleteList(w.db, q) && ListsOnce(q);
    ListedGone(w, q);
    ListedIff(w.db, q.cutoff, q.order);
    CleanWritten(w, l.r, q.cutoff, q.order, q.rows, false);
  }

  // ---------- and it can happen ----------

  /** A retract that has read an unclaimed message and passed its checks. */
  lemma ReadForRetract(w: World, m: MessageId, r: RequestId) returns (run: seq<Label>, next: World)
    requires m in w.db.messages && w.db.messages[m].holder.None? && w.db.messages[m].channel in w.db.channels && r !in w.requests
    ensures next == Exec(w, run) && next == Answered(w, r, AtRetractWrite(m, w.db.messages[m]))
  {
    var seen := w.db.messages[m];
    run := [RetractStart(r, m, true), RetractCheck(r)];
    ExecTwo(w, RetractStart(r, m, true), RetractCheck(r));
    next := Answered(w, r, AtRetractWrite(m, seen));
    assert Next(w, RetractStart(r, m, true)) == Answered(w, r, AtRetractCheck(m, seen, true));
    assert Next(Answered(w, r, AtRetractCheck(m, seen, true)), RetractCheck(r)).requests == next.requests;
  }

  lemma OneMoreRow(audit: seq<Archived>, row: Archived)
    ensures RowsOf(audit + [row], row.id) == RowsOf(audit, row.id) + 1
  {
    assert [row][..0] == [];
    RowsAppend(audit, [row], row.id);
  }

  lemma RetractWritten(w: World, r: RequestId, m: MessageId, seen: Message) returns (next: World)
    requires Pending(w, r) == Some(AtRetractWrite(m, seen))
    ensures next == Exec(w, [RetractWrite(r)]) && m !in next.db.messages
    ensures RowsOf(next.db.audit, m) == RowsOf(w.db.audit, m) + 1
    ensures next.requests == w.requests[r := Finished(Retracted)]
  {
    ExecOne(w, RetractWrite(r));
    next := WriteRetract(w, r, m, seen);
    OneMoreRow(w.db.audit, Archive(m, seen, [], w.db.now));
  }

  /** Any live, unclaimed message can be archived twice: by two retracts that both read it first, and both answer that
   *  they have retracted it. */
  lemma ArchivedTwice(w: World, m: MessageId, r1: RequestId, r2: RequestId) returns (run: seq<Label>, end: World)
    requires m in w.db.messages && w.db.messages[m].holder.None? && w.db.messages[m].channel in w.db.channels
    requires r1 != r2 && r1 !in w.requests && r2 !in w.requests
    ensures end == Exec(w, run) && m !in end.db.messages && RowsOf(end.db.audit, m) == RowsOf(w.db.audit, m) + 2
    ensures Pending(end, r1) == Pending(end, r2) == Some(Finished(Retracted))
  {
    var seen := w.db.messages[m];
    var first, w1 := ReadForRetract(w, m, r1);
    var second, w2 := ReadForRetract(w1, m, r2);
    ExecAppend(w, first, second);
    var w3 := RetractWritten(w2, r1, m, seen);
    ExecAppend(w, first + second, [RetractWrite(r1)]);
    end := RetractWritten(w3, r2, m, seen);
    ExecAppend(w, first + second + [RetractWrite(r1)], [RetractWrite(r2)]);
    run := first + second + [RetractWrite(r1)] + [RetractWrite(r2)];
  }

  lemma ClaimGranted(w: World, m: MessageId, r: RequestId, req: ClaimRequest) returns (next: World)
    requires m in w.db.messages && w.db.messages[m].holder.None? && w.db.messages[m].expiresAt > w.db.now
    requires var c := w.db.messages[m].channel; c in w.db.channels && w.db.channels[c].mode.Claimable?
    requires r !in w.requests && req.m == m && req.allowed && req.lease.None?
    ensures next == Exec(w, Steps(Claim(r, req)))
    ensures m in next.db.messages && next.db.messages[m].holder == Some(req.actor) && next.requests == w.requests[r := Finished(Claimed)]
  {
    ClaimIsWhole(w, r, req);
    next := Exec(w, Steps(Claim(r, req)));
  }

  /** Retracting refuses claimed messages, but any message can be claimed between a retract's read and its write, and is
   *  then removed under its holder. */
  lemma ClaimedRetracted(w: World, m: MessageId, r1: RequestId, r2: RequestId, req: ClaimRequest)
    returns (run: seq<Label>, claimed: World, end: World)
    requires m in w.db.messages && w.db.messages[m].holder.None? && w.db.messages[m].expiresAt > w.db.now
    requires var c := w.db.messages[m].channel; c in w.db.channels && w.db.channels[c].mode.Claimable?
    requires r1 != r2 && r1 !in w.requests && r2 !in w.requests && req.m == m && req.allowed && req.lease.None?
    ensures claimed == Exec(w, run) && m in claimed.db.messages && claimed.db.messages[m].holder == Some(req.actor)
    ensures Pending(claimed, r2) == Some(Finished(Claimed))
    ensures end == Exec(claimed, [RetractWrite(r1)]) && m !in end.db.messages && Pending(end, r1) == Some(Finished(Retracted))
  {
    var read, w1 := ReadForRetract(w, m, r1);
    claimed := ClaimGranted(w1, m, r2, req);
    run := read + Steps(Claim(r2, req));
    ExecAppend(w, read, Steps(Claim(r2, req)));
    end := RetractWritten(claimed, r1, m, w.db.messages[m]);
  }

  /** Such a message exists in a reachable world. */
  lemma Retractable() returns (run: seq<Label>, w: World)
    ensures w == Exec(START, run) && w.requests == map[]
    ensures 0 in w.db.messages && w.db.messages[0].holder.None? && w.db.messages[0].expiresAt > w.db.now
    ensures w.db.messages[0].channel in w.db.channels && w.db.channels[w.db.messages[0].channel].mode.Claimable?
  {
    run, w := AckSafety.JobPosted();
  }

  /** A post that would be accepted, to a channel whose messages expire at once. */
  ghost predicate Instant(db: Db, post: PostRequest) {
    && PostRefusal(db, post).None?
    && db.channels[post.channel].ttlSeconds <= 0
    && (db.channels[post.channel].maxMessages.Some? ==> db.channels[post.channel].maxMessages.value >= 1)
  }

  lemma {:induction false} Soonest(ms: MessageTable, rows: set<MessageId>) returns (m: MessageId)
    requires rows != {} && rows <= ms.Keys
    ensures m in rows && forall x :: x in rows ==> ms[m].expiresAt <= ms[x].expiresAt
  {
    var y :| y in rows;
    m := y;
    var others := rows - {y};
    assert forall x :: x in rows <==> x == y || x in others;
    if others != {} {
      var z := Soonest(ms, others);
      m := if ms[z].expiresAt < ms[y].expiresAt then z else y;
    }
  }

  /** Any rows can be listed in order of expiry. */
  lemma {:induction false} InOrderOfExpiry(ms: MessageTable, rows: set<MessageId>) returns (order: seq<MessageId>)
    requires rows <= ms.Keys
    ensures forall m :: m in order <==> m in rows
    ensures forall i, j :: 0 <= i < j < |order| ==> order[i] != order[j]
    ensures forall i, j :: 0 <= i < j < |order| && order[i] in ms && order[j] in ms
                           ==> ms[order[i]].expiresAt <= ms[order[j]].expiresAt
    decreases |rows|
  {
    order := [];
    if rows != {} {
      var first := Soonest(ms, rows);
      var rest := InOrderOfExpiry(ms, rows - {first});
      order := [first] + rest;
      forall j | 0 <= j < |rest| ensures rest[j] in rows - {first} { assert rest[j] in rest; }
    }
  }

  /** A cleanup that has just listed. */
  lemma Lists(w: World, r: RequestId) returns (order: seq<MessageId>, next: World)
    requires r !in w.requests
    ensures ExpiredListing(w.db.messages, w.db.now, order)
    ensures next == Exec(w, [CleanStart(r, order)]) && next == Answered(w, r, Cleaning(w.db.now, order, w.db.messages))
  {
    order := InOrderOfExpiry(w.db.messages, Outlived(w.db.messages, w.db.now));
    ExecOne(w, CleanStart(r, order));
    next := Next(w, CleanStart(r, order));
  }

  lemma InstantRow(db: Db, post: PostRequest)
    requires Ordered(db) && Instant(db, post)
    ensures
      var (after, id) := (Post(db, post).0, db.nextMessage);
      && Post(db, post).1.Posted? && id in after.messages && after.messages[id].expiresAt <= db.now
      && id !in Posting(db, post).trimmed
  {
    var (c, id) := (post.channel, db.nextMessage);
    var cap := db.channels[c].maxMessages;
    var before := Inserted(db, post);
    if cap.Some? {
      TrimKeepsNewest(db, post, cap.value);
      assert id in InChannel(before, c) && Newer(InChannel(before, c), id) == {};
      assert id in InChannel(Post(db, post).0.messages, c);
    }
  }

  /** A post in the gap: live, due to be deleted, and on no list. */
  lemma PostedInGap(w: World, post: PostRequest) returns (next: World)
    requires Good(w) && Instant(w.db, post)
    ensures next == Exec(w, [Do(PostMessage(post))]) && Good(next) && next.requests == w.requests
    ensures next.db.channels == w.db.channels && next.db.now == w.db.now
    ensures var m := w.db.nextMessage; m in next.db.messages && next.db.messages[m].expiresAt <= w.db.now
    ensures LifeOf(next.history, w.db.nextMessage) == UNTOUCHED
  {
    var l := Do(PostMessage(post));
    ExecOne(w, l);
    next := Next(w, l);
    NextGood(w, l);
    InstantRow(w.db, post);
    assert Tracked(w, w.db.nextMessage);
    LifeSnoc(w.history, Entry(w.db.now, Posting(w.db, post)), w.db.nextMessage);
  }

  lemma UnlistedLife(db: Db, cutoff: Time, order: seq<MessageId>, seen: MessageTable, m: MessageId)
    requires ListsOnce(Cleaning(cutoff, order, seen)) && m in db.messages && db.messages[m].expiresAt <= cutoff && m !in order
    ensures
      var f := Live(UNTOUCHED, Summary(db, cutoff, order, seen), m);
      f.lost == 1 && f.rows == 0 && m !in CleanupUpdate(db, cutoff, order, seen).messages
  {
    RowsListed(seen, db.messages, order, db.now, m);
  }

  /** A cleanup deletes what has expired by its listing, whether it listed it or not. */
  lemma DeletedUnlisted(w: World, r: RequestId, cutoff: Time, order: seq<MessageId>, seen: MessageTable, m: MessageId)
    returns (end: World)
    requires Pending(w, r) == Some(Cleaning(cutoff, order, seen)) && ListsOnce(w.requests[r]) && CanArchive(w.db, order, seen)
    requires m in w.db.messages && w.db.messages[m].expiresAt <= cutoff && m !in order && LifeOf(w.history, m) == UNTOUCHED
    ensures end == Exec(w, [CleanWrite(r, false)]) && m !in end.db.messages
    ensures LifeOf(end.history, m).lost == 1 && LifeOf(end.history, m).rows == 0
  {
    ExecOne(w, CleanWrite(r, false));
    CommitIs(w, CleanWrite(r, false));
    end := Next(w, CleanWrite(r, false));
    UnlistedLife(w.db, cutoff, order, seen, m);
    LifeSnoc(w.history, Entry(w.db.now, Summary(w.db, cutoff, order, seen)), m);
  }

  /** The condition on the TTL is needed. In every reachable world, a post to any channel with a TTL of zero or less,
   *  made between a cleanup's listing and its transaction, is deleted without an archive row. */
  lemma ZeroTtlLoses(run: seq<Label>, post: PostRequest, r: RequestId) returns (order: seq<MessageId>)
    requires Instant(Exec(START, run).db, post) && r !in Exec(START, run).requests
    ensures
      var (w, m) := (Exec(START, run), Exec(START, run).db.nextMessage);
      var end := Exec(w, [CleanStart(r, order)] + [Do(PostMessage(post))] + [CleanWrite(r, false)]);
      && m in PostsOf(end.history) && m !in end.db.messages
      && LifeOf(end.history, m).lost == 1 && RowsOf(end.db.audit, m) == 0 && LifeOf(end.history, m).purged == 0
  {
    var w := Exec(START, run);
    var m := w.db.nextMessage;
    StartGood();
    RunGood(START, run);
    AckSafety.RunGood(START, run);
    var listed;
    order, listed := Lists(w, r);
    RunGood(w, [CleanStart(r, order)]);
    var posted := PostedInGap(listed, post);
    assert ListsOnce(posted.requests[r]);
    var end := DeletedUnlisted(posted, r, w.db.now, order, w.db.messages, m);
    RunGood(posted, [CleanWrite(r, false)]);
    assert Tracked(end, m);
    ExecAppend(w, [CleanStart(r, order)], [Do(PostMessage(post))]);
    ExecAppend(w, [CleanStart(r, order)] + [Do(PostMessage(post))], [CleanWrite(r, false)]);
  }
}
