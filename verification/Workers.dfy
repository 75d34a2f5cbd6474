/** The queue-drain verb among other requests: a listing, then the four-step claims of its candidates one after the other,
 *  each interleaved with whatever other workers do. */
module Workers {
  import opened Common
  import opened Tables
  import opened Protocol
  import opened Claims
  import opened Paging
  import Lifecycle

  // ---------- what becomes of one claim request ----------

  /** Label s of the run began this claim. */
  ghost predicate Began(run: seq<Label>, s: nat, r: RequestId, req: ClaimRequest) {
    s < |run| && run[s] == ClaimStart(r, req) && r !in Exec(START, run[..s]).requests
  }

  /** Label j of the run is the claim's UPDATE, and it finds its row. */
  ghost predicate GrantedAt(run: seq<Label>, j: nat, r: RequestId, req: ClaimRequest) {
    && j < |run| && run[j] == ClaimWrite(r)
    && Grants(Exec(START, run[..j]), r, req)
  }

  ghost predicate Grants(w: World, r: RequestId, req: ClaimRequest) {
    && r in w.requests && w.requests[r].AtUpdate? && w.requests[r].req == req
    && req.m in w.db.messages && Open(w.db.messages[req.m], w.requests[r].at)
  }

  /** Why a claim of a message in channel c can answer 409, or that its caller holds the message already. */
  ghost predicate Busy(db: Db, m: MessageId, c: ChannelId) {
    || m !in db.messages
    || db.messages[m].holder.Some?
    || (c in db.channels && db.channels[c].mode != Claimable)
  }

  /** The verb passes on to its next candidate. */
  predicate Skips(reply: Reply) { reply.AlreadyHeld? || (reply.Refused? && reply.status == 409) }

  ghost predicate BusySince(run: seq<Label>, s: nat, m: MessageId, c: ChannelId) {
    exists p :: s <= p < |run| && Busy(Exec(START, run[..p]).db, m, c)
  }

  ghost predicate GrantedSince(run: seq<Label>, s: nat, r: RequestId, req: ClaimRequest) {
    exists j :: s <= j < |run| && GrantedAt(run, j, r, req)
  }

  /** Where a claim that read `seen` can be. */
  ghost predicate ClaimPlace(run: seq<Label>, s: nat, r: RequestId, req: ClaimRequest, seen: Message, q: Request) {
    match q
    case AtChannel(x, row) => x == req && row == seen
    case AtDecision(x, row) => x == req && row == seen
    case AtUpdate(x, _, _) => x == req
    case Finished(reply) =>
      && (Succeeded(reply) ==> GrantedSince(run, s, r, req))
      && (Skips(reply) ==> BusySince(run, s, req.m, seen.channel))
    case _ => false
  }

  /** One label moves a claim at most one step on. */
  lemma ClaimMoves(w: World, l: Label, r: RequestId)
    requires r in w.requests && (w.requests[r].AtChannel? || w.requests[r].AtDecision? || w.requests[r].AtUpdate? || w.requests[r].Finished?)
    ensures r in Next(w, l).requests
    ensures
      var (q, t) := (w.requests[r], Next(w, l).requests[r]);
      || t == q
      || (l == ClaimChannel(r) && q.AtChannel? && t == CheckChannel(w, r, q.req, q.seen).requests[r])
      || (l == ClaimCheck(r) && q.AtDecision? && t == Decide(w, r, q.req, q.seen).requests[r])
      || (l == ClaimWrite(r) && q.AtUpdate? && t == Finished(ClaimUpdate(w.db, q.req, q.prev, q.at).1))
  {
    if l.Do? { PerformRequests(w, l.op); }
  }

  lemma {:induction false} Later(run: seq<Label>, s: nat, r: RequestId, req: ClaimRequest, seen: Message, q: Request)
    requires run != [] && s < |run| - 1 && ClaimPlace(run[..|run| - 1], s, r, req, seen, q)
    ensures ClaimPlace(run, s, r, req, seen, q)
  {
    var most := run[..|run| - 1];
    assert forall p :: 0 <= p <= |most| ==> most[..p] == run[..p];
    if GrantedSince(most, s, r, req) {
      var j :| s <= j < |most| && GrantedAt(most, j, r, req);
      assert GrantedAt(run, j, r, req);
    }
    if BusySince(most, s, req.m, seen.channel) {
      var p :| s <= p < |most| && Busy(Exec(START, most[..p]).db, req.m, seen.channel);
      assert Busy(Exec(START, run[..p]).db, req.m, seen.channel);
    }
  }

  lemma Begins(w: World, r: RequestId, req: ClaimRequest) returns (seen: Message)
    requires r !in w.requests
    ensures
      var q := Pending(Next(w, ClaimStart(r, req)), r);
      && (req.m in w.db.messages ==> seen == w.db.messages[req.m])
      && (q == Some(AtChannel(req, seen))
          || (q.Some? && q.value.Finished? && !Succeeded(q.value.reply) && !Skips(q.value.reply)))
  {
    seen := if req.m in w.db.messages then w.db.messages[req.m]
            else Message(0, 0, "", 0, 0, None, None, None, None, None, []);
  }

  /** One step of the claim itself: an answer that skips has its reason now or at the read, a success is a grant now. */
  lemma Proceeds(w: World, l: Label, r: RequestId, req: ClaimRequest, seen: Message)
    requires r in w.requests && l in {ClaimChannel(r), ClaimCheck(r), ClaimWrite(r)}
    requires var q := w.requests[r];
             q == AtChannel(req, seen) || q == AtDecision(req, seen) || (q.AtUpdate? && q.req == req)
    ensures r in Next(w, l).requests
    ensures
      var (q, t) := (w.requests[r], Next(w, l).requests[r]);
      || t == q || t == AtDecision(req, seen) || (t.AtUpdate? && t.req == req)
      || (t.Finished?
          && (Succeeded(t.reply) ==> l == ClaimWrite(r) && Grants(w, r, req))
          && (Skips(t.reply) ==> seen.holder.Some? || Busy(w.db, req.m, seen.channel)))
  {
  }

  /** Where a claim is at the end of a run, and what its answer tells of the run. */
  lemma {:induction false} ClaimTrace(run: seq<Label>, s: nat, r: RequestId, req: ClaimRequest) returns (seen: Message)
    requires Began(run, s, r, req)
    ensures var db := Exec(START, run[..s]).db; req.m in db.messages ==> seen == db.messages[req.m]
    ensures r in Exec(START, run).requests && ClaimPlace(run, s, r, req, seen, Exec(START, run).requests[r])
    decreases |run|
  {
    var last := |run| - 1;
    var (most, l) := (run[..last], run[last]);
    var w := Exec(START, most);
    if s == last {
      seen := Begins(w, r, req);
    } else {
      assert most[..s] == run[..s];
      seen := ClaimTrace(most, s, r, req);
      ClaimMoves(w, l, r);
      if Next(w, l).requests[r] == w.requests[r] {
        Later(run, s, r, req, seen, w.requests[r]);
      } else {
        Proceeds(w, l, r, req, seen);
        Answers(run, s, r, req, seen);
      }
    }
  }

  /** The last label of the run answered the claim. */
  lemma Answers(run: seq<Label>, s: nat, r: RequestId, req: ClaimRequest, seen: Message)
    requires run != [] && s < |run| - 1
    requires var db := Exec(START, run[..s]).db; req.m in db.messages ==> seen == db.messages[req.m]
    ensures
      var w := Exec(START, run[..|run| - 1]);
      && (run[|run| - 1] == ClaimWrite(r) && Grants(w, r, req) ==> GrantedSince(run, s, r, req))
      && (seen.holder.Some? || Busy(w.db, req.m, seen.channel) ==> BusySince(run, s, req.m, seen.channel))
  {
    var last := |run| - 1;
    if run[last] == ClaimWrite(r) && Grants(Exec(START, run[..last]), r, req) { assert GrantedAt(run, last, r, req); }
    assert Busy(Exec(START, run[..last]).db, req.m, seen.channel) ==> BusySince(run, s, req.m, seen.channel);
    if seen.holder.Some? { assert Busy(Exec(START, run[..s]).db, req.m, seen.channel); }
  }

  /** The entry a grant appends to the history. */
  lemma GrantEntry(run: seq<Label>, j: nat, r: RequestId, req: ClaimRequest) returns (i: nat)
    requires GrantedAt(run, j, r, req)
    ensures i == |Exec(START, run[..j]).history|
    ensures var h := Exec(START, run).history; IsGrant(h, i, req.m) && h[i].what.actor == req.actor
  {
    var w := Exec(START, run[..j]);
    i := |w.history|;
    var next := Next(w, ClaimWrite(r));
    assert run[..j + 1][..j] == run[..j];
    assert Exec(START, run[..j + 1]) == next;
    assert run == run[..j + 1] + run[j + 1..];
    ExecAppend(START, run[..j + 1], run[j + 1..]);
    HistoryGrows(next, run[j + 1..]);
    assert Exec(START, run).history[i] == next.history[i];
  }

  lemma LaterEntry(run: seq<Label>, j: nat, k: nat, r: RequestId, req: ClaimRequest)
    requires GrantedAt(run, j, r, req) && j < k < |run|
    ensures |Exec(START, run[..j]).history| < |Exec(START, run[..k]).history|
  {
    var next := Next(Exec(START, run[..j]), ClaimWrite(r));
    assert run[..j + 1][..j] == run[..j];
    assert run[..k] == run[..j + 1] + run[j + 1..k];
    ExecAppend(START, run[..j + 1], run[j + 1..k]);
    HistoryGrows(next, run[j + 1..k]);
  }

  // ---------- calls of the verb ----------

  /** A call: where in the run it listed, the page it got, and the claims it has begun, in order. */
  datatype Call = Call(listed: nat, page: seq<MessageId>, who: Worker, starts: seq<nat>, requests: seq<RequestId>)

  const PAGE: nat := 20

  /** The call made its claims of the page's messages in order, each once the one before was passed over. */
  ghost predicate IsCall(run: seq<Label>, c: ChannelId, call: Call) {
    && call.listed <= |run|
    && (var db := Exec(START, run[..call.listed]).db; IsPage(db.messages, Queue(db, c), PAGE, call.page))
    && |call.starts| == |call.requests| <= |call.page|
    && (forall k :: 0 <= k < |call.starts| ==>
          call.listed <= call.starts[k] && Began(run, call.starts[k], call.requests[k], ClaimOf(call, k)))
    && (forall k :: 0 < k < |call.starts| ==> PassedOver(run[..call.starts[k]], call.requests[k - 1]))
  }

  function ClaimOf(call: Call, k: nat): ClaimRequest
    requires k < |call.page|
  {
    DrainClaim(call.page[k], call.who.actor, call.who.key)
  }

  ghost predicate PassedOver(run: seq<Label>, r: RequestId) {
    match Pending(Exec(START, run), r)
    case Some(Finished(reply)) => Skips(reply)
    case _ => false
  }

  datatype Outcome = Working | HandedOut(m: MessageId) | Nothing | Raised(reply: Reply)

  /** What the call has answered by the end of the run. */
  ghost function OutcomeOf(run: seq<Label>, call: Call): Outcome
    requires |call.starts| == |call.requests| <= |call.page|
  {
    var n := |call.requests|;
    if n == 0 then (if call.page == [] then Nothing else Working)
    else match Pending(Exec(START, run), call.requests[n - 1])
      case Some(Finished(reply)) =>
        if reply.Claimed? then HandedOut(call.page[n - 1])
        else if Skips(reply) then (if n == |call.page| then Nothing else Working)
        else Raised(reply)
      case _ => Working
  }

  /** A message handed out was queued when the call listed, and one of its own claims was granted since. */
  lemma HandedOutWasQueued(run: seq<Label>, c: ChannelId, call: Call) returns (j: nat)
    requires IsCall(run, c, call) && OutcomeOf(run, call).HandedOut?
    ensures
      var (m, k) := (OutcomeOf(run, call).m, |call.requests| - 1);
      && m in Queue(Exec(START, run[..call.listed]).db, c)
      && k >= 0 && m == call.page[k] && call.listed <= call.starts[k] <= j
      && GrantedAt(run, j, call.requests[k], ClaimOf(call, k))
  {
    var k := |call.requests| - 1;
    var seen := ClaimTrace(run, call.starts[k], call.requests[k], ClaimOf(call, k));
    assert GrantedSince(run, call.starts[k], call.requests[k], ClaimOf(call, k));
    j :| call.starts[k] <= j < |run| && GrantedAt(run, j, call.requests[k], ClaimOf(call, k));
  }

  /** One hold after the other: entry i granted a's claim, entry j b's, and something ended the first hold in between. */
  ghost predicate OneAfterTheOther(h: seq<Entry>, m: MessageId, a: Actor, b: Actor) {
    exists i, j, k ::
      && IsGrant(h, i, m) && h[i].what.actor == a && IsGrant(h, j, m) && h[j].what.actor == b
      && i < k <= j && EndsHold(h, i, k)
  }

  lemma GrantsApart(run: seq<Label>, m: MessageId, ja: nat, ra: RequestId, a: ClaimRequest, jb: nat, rb: RequestId, b: ClaimRequest)
    requires GrantedAt(run, ja, ra, a) && GrantedAt(run, jb, rb, b) && a.m == b.m == m && ja < jb
    ensures OneAfterTheOther(Exec(START, run).history, m, a.actor, b.actor)
  {
    var i := GrantEntry(run, ja, ra, a);
    var j := GrantEntry(run, jb, rb, b);
    LaterEntry(run, ja, jb, ra, a);
    ExclusiveHold(run, m, i, j);
    var h := Exec(START, run).history;
    var k :| i < k <= j && EndsHold(h, i, k);
  }

  /** A request is begun once. */
  lemma {:induction false} BegunOnce(run: seq<Label>, s: nat, t: nat, r: RequestId, a: ClaimRequest, b: ClaimRequest)
    requires Began(run, s, r, a) && Began(run, t, r, b)
    ensures s == t
  {
    if s < t { InUse(run, s, t, r, a); }
    if t < s { InUse(run, t, s, r, b); }
  }

  lemma InUse(run: seq<Label>, s: nat, t: nat, r: RequestId, req: ClaimRequest)
    requires Began(run, s, r, req) && s < t <= |run|
    ensures r in Exec(START, run[..t]).requests
  {
    assert run[..t][..s] == run[..s];
    var seen := ClaimTrace(run[..t], s, r, req);
  }

  /** No message goes to two callers without an ending in between: whatever the workers' listings and claims interleave
   *  with, of two calls that hand out one message the earlier hold was ended before the later claim was granted. */
  lemma NoDoubleHandout(run: seq<Label>, c: ChannelId, d: ChannelId, a: Call, b: Call, m: MessageId)
    requires IsCall(run, c, a) && IsCall(run, d, b)
    requires OutcomeOf(run, a) == HandedOut(m) && OutcomeOf(run, b) == HandedOut(m)
    requires a.starts[|a.starts| - 1] != b.starts[|b.starts| - 1]
    ensures
      var h := Exec(START, run).history;
      OneAfterTheOther(h, m, a.who.actor, b.who.actor) || OneAfterTheOther(h, m, b.who.actor, a.who.actor)
  {
    var (k, n) := (|a.requests| - 1, |b.requests| - 1);
    var ja := HandedOutWasQueued(run, c, a);
    var jb := HandedOutWasQueued(run, d, b);
    if ja == jb {
      assert a.requests[k] == b.requests[n];
      BegunOnce(run, a.starts[k], b.starts[n], a.requests[k], ClaimOf(a, k), ClaimOf(b, n));
    } else if ja < jb {
      GrantsApart(run, m, ja, a.requests[k], ClaimOf(a, k), jb, b.requests[n], ClaimOf(b, n));
    } else {
      GrantsApart(run, m, jb, b.requests[n], ClaimOf(b, n), ja, a.requests[k], ClaimOf(a, k));
    }
  }

  // ---------- why a call passes a candidate over ----------

  lemma StepKeepsChannel(w: World, l: Label, m: MessageId)
    requires m < w.db.nextMessage
    ensures w.db.nextMessage <= Next(w, l).db.nextMessage
    ensures m in Next(w, l).db.messages ==>
              m in w.db.messages && Next(w, l).db.messages[m].channel == w.db.messages[m].channel
  {
    if l.Do? && l.op.PostMessage? {
      if Post(w.db, l.op.post).1.Posted? { Lifecycle.PostTouchesNothingElse(w.db, l.op.post, m); }
    } else {
      Lifecycle.NextShrinks(w, l);
    }
  }

  /** A message stays in its channel. */
  lemma {:induction false} ChannelKept(w: World, run: seq<Label>, m: MessageId)
    requires m < w.db.nextMessage
    ensures m < Exec(w, run).db.nextMessage
    ensures m in Exec(w, run).db.messages ==>
              m in w.db.messages && Exec(w, run).db.messages[m].channel == w.db.messages[m].channel
  {
    if run != [] {
      ChannelKept(w, run[..|run| - 1], m);
      StepKeepsChannel(Exec(w, run[..|run| - 1]), run[|run| - 1], m);
    }
  }

  /** A call passes a candidate over only if, since it began to claim it, the message was held or gone, or the channel
   *  not claimable. */
  lemma PassedOverWasBusy(run: seq<Label>, c: ChannelId, call: Call, k: nat)
    requires IsCall(run, c, call) && k < |call.requests| && PassedOver(run, call.requests[k])
    ensures exists p :: call.starts[k] <= p < |run| && Busy(Exec(START, run[..p]).db, call.page[k], c)
  {
    var (s, m) := (call.starts[k], call.page[k]);
    var seen := ClaimTrace(run, s, call.requests[k], ClaimOf(call, k));
    var (listing, start) := (Exec(START, run[..call.listed]), Exec(START, run[..s]));
    if m in start.db.messages {
      Lifecycle.RunOrdered(run[..call.listed]);
      assert run[..s] == run[..call.listed] + run[call.listed..s];
      ExecAppend(START, run[..call.listed], run[call.listed..s]);
      ChannelKept(listing, run[call.listed..s], m);
      assert seen.channel == c;
    } else {
      assert Busy(start.db, m, c);
    }
  }

  lemma StaysPassedOver(run: seq<Label>, s: nat, r: RequestId)
    requires s <= |run| && PassedOver(run[..s], r)
    ensures PassedOver(run, r)
  {
    assert run == run[..s] + run[s..];
    ExecAppend(START, run[..s], run[s..]);
    FinishedStays(Exec(START, run[..s]), run[s..], r);
  }

  lemma {:induction false} FinishedStays(w: World, run: seq<Label>, r: RequestId)
    requires r in w.requests && w.requests[r].Finished?
    ensures r in Exec(w, run).requests && Exec(w, run).requests[r] == w.requests[r]
  {
    if run != [] {
      FinishedStays(w, run[..|run| - 1], r);
      ClaimMoves(Exec(w, run[..|run| - 1]), run[|run| - 1], r);
    }
  }

  /** Oldest first as far as the others allow: a call that hands out a message, or nothing, passed over the older ones on
   *  its page, each of which was held or gone, or its channel not claimable, at some moment of the call. */
  lemma OlderOnesWereBusy(run: seq<Label>, c: ChannelId, call: Call, k: nat)
    requires IsCall(run, c, call) && k < |call.requests|
    requires k < |call.requests| - 1 || OutcomeOf(run, call) == Nothing
    ensures exists p :: call.listed <= p < |run| && Busy(Exec(START, run[..p]).db, call.page[k], c)
  {
    if k < |call.requests| - 1 {
      assert PassedOver(run[..call.starts[k + 1]], call.requests[k]);
      StaysPassedOver(run, call.starts[k + 1], call.requests[k]);
    }
    PassedOverWasBusy(run, c, call, k);
    var p :| call.starts[k] <= p < |run| && Busy(Exec(START, run[..p]).db, call.page[k], c);
  }

  /** A call answers null only if the queue was empty when it listed, or everything on its page was busy during the call. */
  lemma NothingMeansBusy(run: seq<Label>, c: ChannelId, call: Call, m: MessageId)
    requires IsCall(run, c, call) && OutcomeOf(run, call) == Nothing
    ensures call.page == [] ==> Queue(Exec(START, run[..call.listed]).db, c) == {}
    ensures m in call.page ==> exists p :: call.listed <= p < |run| && Busy(Exec(START, run[..p]).db, m, c)
  {
    if m in call.page {
      var k :| 0 <= k < |call.page| && call.page[k] == m;
      OlderOnesWereBusy(run, c, call, k);
    }
  }
}
