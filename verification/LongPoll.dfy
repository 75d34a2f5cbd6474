/** Bounded long-poll: posters commit and then signal; waiters capture the channel's version, query, and
 *  park until it changes. Every interleaving of their steps is a run. */
module LongPoll {
  import opened Common

  type ChannelId = nat
  type MessageId = nat
  type PosterId = nat
  type WaiterId = nat

  // ---------- the shared variables ----------

  type Versions = map<ChannelId, nat>

  function Version(versions: Versions, c: ChannelId): nat {
    if c in versions then versions[c] else 0
  }

  function Bump(versions: Versions, c: ChannelId): Versions {
    versions[c := Version(versions, c) + 1]
  }

  /** acquire(blocking=False): None when no permit is free. */
  function TakePermit(permits: nat): Option<nat> {
    if permits == 0 then None else Some(permits - 1)
  }

  /** A bounded semaphore raises when released above its bound: None is that exception. */
  function ReturnPermit(permits: nat, cap: nat): Option<nat> {
    if permits >= cap then None else Some(permits + 1)
  }

  // ---------- the protocol ----------

  datatype Msg = Msg(channel: ChannelId, stamp: Time, expires: Time)

  /** The caller's filter; `claimed` is the only part whose verdict on a message can change. */
  datatype Query = Query(channel: ChannelId, since: Option<Time>, before: Option<Time>, claimed: Option<bool>)

  datatype Pc =
    | Captured(seen: nat)          // version read, query not made yet
    | NeedPermit(seen: nat)        // nothing found, willing to wait
    | Entering(seen: nat)          // permit held, about to test the version under the lock
    | Parked(seen: nat)            // in condition.wait, not notified
    | Notified(seen: nat)          // notified, not running yet
    | Requerying                   // left the loop
    | Releasing(result: set<MessageId>)
    | Returned(result: set<MessageId>)
    | Crashed                      // the release of the permit raised

  /** `flipped`: messages whose claim status changed since the first query (a history variable). */
  datatype Waiter = Waiter(query: Query, waits: bool, pc: Pc, flipped: set<MessageId>)

  datatype Poster = ToSignal(m: MessageId, channel: ChannelId) | Signalled

  /** `live`: the rows a query sees, not deleted and not expired; a message that expires leaves it by a Remove step. */
  datatype State = State(
    live: map<MessageId, Msg>,
    claimed: set<MessageId>,
    next: MessageId,
    versions: Versions,
    permits: nat,
    cap: nat,
    posters: map<PosterId, Poster>,
    waiters: map<WaiterId, Waiter>)

  datatype Step =
    | Commit(p: PosterId, msg: Msg)
    | Signal(p: PosterId)
    | Remove(m: MessageId)
    | Flip(m: MessageId)
    | Capture(w: WaiterId, query: Query, waits: bool)
    | FirstQuery(w: WaiterId)
    | Acquire(w: WaiterId)
    | Test(w: WaiterId, deadlinePassed: bool)
    | Wake(w: WaiterId)
    | SecondQuery(w: WaiterId, fails: bool)
    | GiveBack(w: WaiterId)

  predicate Matches(s: State, m: MessageId, q: Query)
    requires m in s.live
  {
    && s.live[m].channel == q.channel
    && (q.since.Some? ==> s.live[m].stamp > q.since.value)
    && (q.before.Some? ==> s.live[m].expires < q.before.value)
    && (q.claimed.Some? ==> (m in s.claimed) == q.claimed.value)
  }

  function Found(s: State, q: Query): set<MessageId> {
    set m | m in s.live && Matches(s, m, q)
  }

  /** notify_all: every parked waiter, whatever its channel, is due to run again. */
  function NotifyAll(ws: map<WaiterId, Waiter>): map<WaiterId, Waiter> {
    map w | w in ws :: if ws[w].pc.Parked? then ws[w].(pc := Notified(ws[w].pc.seen)) else ws[w]
  }

  function NoteFlip(ws: map<WaiterId, Waiter>, m: MessageId): map<WaiterId, Waiter> {
    map w | w in ws :: ws[w].(flipped := ws[w].flipped + {m})
  }

  /** What a waiter sees of the shared state at one of its turns: the versions, the free permits, what its query finds. */
  datatype Glance = Glance(versions: Versions, permits: nat, found: set<MessageId>)

  /** A waiter's turn on what it sees: where it goes, and how many permits are then free. */
  function TurnOn(g: Glance, cap: nat, w: Waiter, step: Step): (Waiter, nat) {
    match w.pc
    case Captured(seen) =>
      if !step.FirstQuery? then (w, g.permits)
      else if g.found != {} || !w.waits then (w.(pc := Returned(g.found)), g.permits)
      else (w.(pc := NeedPermit(seen), flipped := {}), g.permits)
    case NeedPermit(seen) =>
      if !step.Acquire? then (w, g.permits)
      else (match TakePermit(g.permits)
            case None => (w.(pc := Returned({})), g.permits)
            case Some(free) => (w.(pc := Entering(seen)), free))
    case Entering(seen) =>
      if !step.Test? then (w, g.permits)
      else if Version(g.versions, w.query.channel) != seen || step.deadlinePassed then (w.(pc := Requerying), g.permits)
      else (w.(pc := Parked(seen)), g.permits)
    case Parked(seen) => (if step.Wake? then w.(pc := Entering(seen)) else w, g.permits)
    case Notified(seen) => (if step.Wake? then w.(pc := Entering(seen)) else w, g.permits)
    case Requerying =>
      (if step.SecondQuery? then w.(pc := Releasing(if step.fails then {} else g.found)) else w, g.permits)
    case Releasing(result) =>
      if !step.GiveBack? then (w, g.permits)
      else (match ReturnPermit(g.permits, cap)
            case None => (w.(pc := Crashed), g.permits)
            case Some(free) => (w.(pc := Returned(result)), free))
    case Returned(_) => (w, g.permits)
    case Crashed => (w, g.permits)
  }

  function Turn(s: State, w: Waiter, step: Step): (Waiter, nat) {
    TurnOn(Glance(s.versions, s.permits, Found(s, w.query)), s.cap, w, step)
  }

  /** One step. A step that does not apply leaves the state alone; waking a parked waiter that nothing
   *  notified is its timeout, or a spurious wakeup. */
  function Next(s: State, step: Step): State {
    match step
    case Commit(p, msg) =>
      if p in s.posters then s
      else s.(live := s.live[s.next := msg], next := s.next + 1, posters := s.posters[p := ToSignal(s.next, msg.channel)])
    case Signal(p) =>
      if p in s.posters && s.posters[p].ToSignal? then
        s.(versions := Bump(s.versions, s.posters[p].channel), posters := s.posters[p := Signalled],
           waiters := NotifyAll(s.waiters))
      else s
    case Remove(m) => s.(live := s.live - {m})
    case Flip(m) =>
      s.(claimed := if m in s.claimed then s.claimed - {m} else s.claimed + {m}, waiters := NoteFlip(s.waiters, m))
    case Capture(w, query, waits) =>
      if w in s.waiters then s
      else s.(waiters := s.waiters[w := Waiter(query, waits, Captured(Version(s.versions, query.channel)), {})])
    case _ =>
      if step.w !in s.waiters then s
      else
        var (after, free) := Turn(s, s.waiters[step.w], step);
        s.(waiters := s.waiters[step.w := after], permits := free)
  }

  function Begin(cap: nat): State { State(map[], {}, 0, map[], cap, cap, map[], map[]) }

  function Exec(cap: nat, run: seq<Step>): State {
    if run == [] then Begin(cap) else Next(Exec(cap, run[..|run| - 1]), run[|run| - 1])
  }

  // ---------- invariants ----------

  predicate Holds(pc: Pc) {
    pc.Entering? || pc.Parked? || pc.Notified? || pc.Requerying? || pc.Releasing?
  }

  function Holders(s: State): set<WaiterId> {
    set w | w in s.waiters && Holds(s.waiters[w].pc)
  }

  ghost predicate SignalPending(s: State, m: MessageId) {
    exists p :: p in s.posters && s.posters[p].ToSignal? && s.posters[p].m == m
  }

  /** Past its first query and before its second, the waiter has read a version. */
  predicate Waiting(pc: Pc) {
    pc.NeedPermit? || pc.Entering? || pc.Parked? || pc.Notified?
  }

  /** Nothing a waiting caller asked for is live without a signal due, a version moved on, or a flipped claim status. */
  ghost predicate NothingMissed(s: State, w: Waiter)
    requires Waiting(w.pc)
  {
    forall m :: m in s.live && Matches(s, m, w.query)
      ==> SignalPending(s, m) || Version(s.versions, w.query.channel) > w.pc.seen
          || (w.query.claimed.Some? && m in w.flipped)
  }

  ghost predicate WaiterOk(s: State, w: Waiter) {
    && (w.pc.Captured? || Waiting(w.pc) ==> w.pc.seen <= Version(s.versions, w.query.channel))
    && (w.pc.Parked? ==> w.pc.seen == Version(s.versions, w.query.channel))
    && (Waiting(w.pc) ==> NothingMissed(s, w))
  }

  ghost predicate PostersOk(s: State) {
    && (forall m :: m in s.live ==> m < s.next)
    && (forall p :: p in s.posters && s.posters[p].ToSignal? ==>
          s.posters[p].m < s.next && (s.posters[p].m in s.live ==> s.live[s.posters[p].m].channel == s.posters[p].channel))
  }

  ghost predicate Inv(s: State, cap: nat) {
    && s.cap == cap && s.permits + |Holders(s)| == cap
    && (forall w :: w in s.waiters ==> !s.waiters[w].pc.Crashed?)
    && PostersOk(s)
    && (forall w :: w in s.waiters ==> WaiterOk(s, s.waiters[w]))
  }

  lemma SameHolders(s: State, t: State)
    requires forall w :: w in s.waiters && Holds(s.waiters[w].pc) <==> w in t.waiters && Holds(t.waiters[w].pc)
    ensures Holders(s) == Holders(t)
  {
  }

  /** A waiter's turn moves its permit with it. */
  lemma TurnPermits(s: State, w: Waiter, step: Step)
    requires w.pc.Releasing? ==> s.permits < s.cap
    ensures !w.pc.Crashed? ==> !Turn(s, w, step).0.pc.Crashed?
    ensures var (after, free) := Turn(s, w, step);
            free + (if Holds(after.pc) then 1 else 0) == s.permits + (if Holds(w.pc) then 1 else 0)
  {
  }

  lemma OneMoves(a: set<WaiterId>, b: set<WaiterId>, w: WaiterId)
    requires forall x :: x != w ==> (x in a <==> x in b)
    ensures |b| + (if w in a then 1 else 0) == |a| + (if w in b then 1 else 0)
  {
    assert a - {w} == b - {w};
    assert |a| == |a - {w}| + if w in a then 1 else 0;
    assert |b| == |b - {w}| + if w in b then 1 else 0;
  }

  predicate Environment(step: Step) {
    step.Commit? || step.Signal? || step.Remove? || step.Flip? || step.Capture?
  }

  /** The semaphore's count follows the holders. */
  lemma NextPermits(s: State, cap: nat, step: Step)
    requires s.cap == cap && s.permits + |Holders(s)| == cap && forall w :: w in s.waiters ==> !s.waiters[w].pc.Crashed?
    ensures var t := Next(s, step);
            && t.cap == cap && t.permits + |Holders(t)| == cap
            && forall w :: w in t.waiters ==> !t.waiters[w].pc.Crashed?
  {
    if Environment(step) {
      SameHolders(s, Next(s, step));
    } else if step.w in s.waiters {
      if s.waiters[step.w].pc.Releasing? { SubsetSize({step.w}, Holders(s)); }
      TurnPermits(s, s.waiters[step.w], step);
      OneMoves(Holders(s), Holders(Next(s, step)), step.w);
    }
  }

  lemma SignalOk(s: State, cap: nat, p: PosterId, w: WaiterId)
    requires Inv(s, cap) && p in s.posters && s.posters[p].ToSignal? && w in s.waiters
    ensures WaiterOk(Next(s, Signal(p)), Next(s, Signal(p)).waiters[w])
  {
    var t := Next(s, Signal(p));
    var (was, now) := (s.waiters[w], t.waiters[w]);
    assert WaiterOk(s, was);
    if Waiting(now.pc) {
      forall m | m in t.live && Matches(t, m, now.query)
        ensures SignalPending(t, m) || Version(t.versions, now.query.channel) > now.pc.seen || (now.query.claimed.Some? && m in now.flipped)
      {
        assert Matches(s, m, was.query);
        if SignalPending(s, m) && s.posters[p].m != m {
          var x :| x in s.posters && s.posters[x].ToSignal? && s.posters[x].m == m;
          assert t.posters[x] == s.posters[x];
        }
      }
    }
  }

  lemma EnvironmentOk(s: State, cap: nat, step: Step, w: WaiterId)
    requires Inv(s, cap) && (step.Commit? || step.Remove? || step.Flip? || step.Capture?) && w in Next(s, step).waiters
    ensures WaiterOk(Next(s, step), Next(s, step).waiters[w])
  {
    var t := Next(s, step);
    var now := t.waiters[w];
    if w in s.waiters { assert WaiterOk(s, s.waiters[w]); }
    if Waiting(now.pc) {
      forall m | m in t.live && Matches(t, m, now.query)
        ensures SignalPending(t, m) || Version(t.versions, now.query.channel) > now.pc.seen || (now.query.claimed.Some? && m in now.flipped)
      {
        if step.Commit? && m == s.next {
          assert t == s || t.posters[step.p] == ToSignal(m, step.msg.channel);
        } else if !(step.Flip? && m == step.m) {
          assert Matches(s, m, now.query);
          if SignalPending(s, m) {
            var x :| x in s.posters && s.posters[x].ToSignal? && s.posters[x].m == m;
            assert t.posters[x] == s.posters[x];
          }
        }
      }
    }
  }

  /** What holds of a waiter holds of it at its next program point. */
  lemma OkStays(s: State, w: Waiter, now: Waiter)
    requires WaiterOk(s, w) && now.query == w.query
    requires Waiting(now.pc) ==> Waiting(w.pc) && now.pc.seen == w.pc.seen && now.flipped == w.flipped
    requires now.pc.Captured? ==> w.pc.Captured? && now.pc.seen == w.pc.seen
    requires now.pc.Parked? ==> w.pc.Parked? || now.pc.seen == Version(s.versions, w.query.channel)
    ensures WaiterOk(s, now)
  {
    if Waiting(now.pc) {
      forall m | m in s.live && Matches(s, m, now.query)
        ensures SignalPending(s, m) || Version(s.versions, now.query.channel) > now.pc.seen || (now.query.claimed.Some? && m in now.flipped)
      {
        assert Matches(s, m, w.query);
      }
    }
  }

  lemma TurnOk(s: State, w: Waiter, step: Step)
    requires WaiterOk(s, w)
    ensures WaiterOk(s, Turn(s, w, step).0)
  {
    var now := Turn(s, w, step).0;
    if w.pc.Captured? && now.pc.NeedPermit? {
      assert forall m :: m in s.live && Matches(s, m, w.query) ==> m in Found(s, w.query);
    } else {
      OkStays(s, w, now);
    }
  }

  lemma WaiterStepOk(s: State, t: State, w: Waiter)
    requires WaiterOk(s, w)
    requires t.live == s.live && t.claimed == s.claimed && t.versions == s.versions && t.posters == s.posters
    ensures WaiterOk(t, w)
  {
    if Waiting(w.pc) {
      forall m | m in t.live && Matches(t, m, w.query)
        ensures SignalPending(t, m) || Version(t.versions, w.query.channel) > w.pc.seen || (w.query.claimed.Some? && m in w.flipped)
      {
        assert Matches(s, m, w.query);
      }
    }
  }

  lemma NextPosters(s: State, step: Step)
    requires PostersOk(s)
    ensures PostersOk(Next(s, step))
  {
  }

  lemma NextKeeps(s: State, cap: nat, step: Step)
    requires Inv(s, cap)
    ensures Inv(Next(s, step), cap)
  {
    var t := Next(s, step);
    NextPermits(s, cap, step);
    NextPosters(s, step);
    forall w | w in t.waiters ensures WaiterOk(t, t.waiters[w]) {
      if step.Signal? {
        if step.p in s.posters && s.posters[step.p].ToSignal? { SignalOk(s, cap, step.p, w); }
      } else if step.Commit? || step.Remove? || step.Flip? || step.Capture? {
        EnvironmentOk(s, cap, step, w);
      } else {
        assert WaiterOk(s, s.waiters[w]);
        if w == step.w { TurnOk(s, s.waiters[w], step); }
        WaiterStepOk(s, t, t.waiters[w]);
      }
    }
  }

  lemma {:induction false} Reachable(cap: nat, run: seq<Step>)
    ensures Inv(Exec(cap, run), cap)
  {
    if run == [] {
      assert Holders(Begin(cap)) == {};
    } else {
      Reachable(cap, run[..|run| - 1]);
      NextKeeps(Exec(cap, run[..|run| - 1]), cap, run[|run| - 1]);
    }
  }

  // ---------- main results ----------

  /** No lost wakeup. While a waiter is parked and not notified, its channel's version is the one it captured
   *  before its query. Every live message it asked for then has a signal on the way, unless its claim status
   *  changed since that query. */
  lemma NoLostWakeup(cap: nat, run: seq<Step>, w: WaiterId, m: MessageId)
    requires var s := Exec(cap, run); w in s.waiters && s.waiters[w].pc.Parked? && m in s.live && Matches(s, m, s.waiters[w].query)
    ensures var s := Exec(cap, run);
            && Version(s.versions, s.live[m].channel) == s.waiters[w].pc.seen
            && (SignalPending(s, m) || (s.waiters[w].query.claimed.Some? && m in s.waiters[w].flipped))
  {
    Reachable(cap, run);
    assert WaiterOk(Exec(cap, run), Exec(cap, run).waiters[w]);
  }

  /** A poster's signal leaves no waiter parked; one waiting on the poster's channel, whatever it is doing between
   *  its capture and its re-query, will fail its version test, and then re-queries every live match. */
  lemma SignalWakes(cap: nat, run: seq<Step>, p: PosterId, w: WaiterId, late: bool, between: seq<Step>)
    requires var s := Exec(cap, run);
             && p in s.posters && s.posters[p].ToSignal?
             && w in s.waiters && (s.waiters[w].pc.Captured? || Waiting(s.waiters[w].pc))
             && s.waiters[w].query.channel == s.posters[p].channel
    requires var t := Exec(cap, run + [Signal(p)] + between); w in t.waiters && t.waiters[w].pc.Entering?
    ensures !Exec(cap, run + [Signal(p)]).waiters[w].pc.Parked?
    ensures var t := Exec(cap, run + [Signal(p)] + between);
            && Next(t, Test(w, late)).waiters[w].pc == Requerying
            && Next(Next(t, Test(w, late)), SecondQuery(w, false)).waiters[w].pc == Releasing(Found(t, t.waiters[w].query))
  {
    var r := run + [Signal(p)];
    assert r[..|r| - 1] == run;
    Reachable(cap, run);
    assert WaiterOk(Exec(cap, run), Exec(cap, run).waiters[w]);
    assert Outdated(Exec(cap, r), w);
    StaysOutdated(cap, r, between, w);
    assert Outdated(Exec(cap, r + between), w);
  }

  /** The waiter's captured version is behind: it is not parked and cannot park again. */
  predicate Outdated(s: State, w: WaiterId) {
    && w in s.waiters
    && (s.waiters[w].pc.Captured? || Waiting(s.waiters[w].pc) ==>
          s.waiters[w].pc.seen < Version(s.versions, s.waiters[w].query.channel) && !s.waiters[w].pc.Parked?)
  }

  lemma NextOutdated(s: State, step: Step, w: WaiterId)
    requires Outdated(s, w)
    ensures Outdated(Next(s, step), w) && Next(s, step).waiters[w].query == s.waiters[w].query
  {
  }

  lemma {:induction false} StaysOutdated(cap: nat, run: seq<Step>, more: seq<Step>, w: WaiterId)
    requires Outdated(Exec(cap, run), w)
    ensures Outdated(Exec(cap, run + more), w)
  {
    if more == [] {
      assert run + more == run;
    } else {
      var k := |more| - 1;
      assert (run + more)[..|run + more| - 1] == run + more[..k];
      StaysOutdated(cap, run, more[..k], w);
      NextOutdated(Exec(cap, run + more[..k]), more[k], w);
    }
  }

  // ---------- what a caller gets ----------

  /** The rows a query made in this state is to find. */
  function Visible(s: State, q: Query): set<MessageId> {
    set m | && m in s.live && s.live[m].channel == q.channel
            && (q.since == None || q.since.value < s.live[m].stamp)
            && (q.before == None || s.live[m].expires < q.before.value)
            && (q.claimed == Some(true) ==> m in s.claimed) && (q.claimed == Some(false) ==> m !in s.claimed)
  }

  /** The waiter's step that settles what its caller gets: a first query that found something or whose caller does not
   *  wait; finding no permit free; or the query after the wait, which may raise. */
  predicate SettlesAt(s: State, step: Step, w: WaiterId, result: set<MessageId>) {
    && w in s.waiters
    && var at := s.waiters[w];
       match step
       case FirstQuery(x) => x == w && at.pc.Captured? && result == Visible(s, at.query) && (result != {} || !at.waits)
       case Acquire(x) => x == w && at.pc.NeedPermit? && s.permits == 0 && result == {}
       case SecondQuery(x, fails) => x == w && at.pc.Requerying? && result == if fails then {} else Visible(s, at.query)
       case _ => false
  }

  /** Its caller has the result, or gets it when the permit is given back. */
  predicate Settled(s: State, w: WaiterId, result: set<MessageId>) {
    w in s.waiters && (s.waiters[w].pc == Releasing(result) || s.waiters[w].pc == Returned(result))
  }

  lemma NextSettled(s: State, step: Step, w: WaiterId, result: set<MessageId>)
    requires w in s.waiters && s.waiters[w].pc.Releasing? ==> s.permits < s.cap
    ensures Settled(Next(s, step), w, result) <==> Settled(s, w, result) || SettlesAt(s, step, w, result)
  {
    if w in s.waiters { assert Found(s, s.waiters[w].query) == Visible(s, s.waiters[w].query); }
  }

  lemma PermitToReturn(cap: nat, run: seq<Step>, w: WaiterId)
    requires var s := Exec(cap, run); w in s.waiters && s.waiters[w].pc.Releasing?
    ensures Exec(cap, run).permits < cap == Exec(cap, run).cap
  {
    Reachable(cap, run);
    SubsetSize({w}, Holders(Exec(cap, run)));
  }

  ghost predicate SettledBy(cap: nat, run: seq<Step>, i: nat, w: WaiterId, result: set<MessageId>) {
    i < |run| && SettlesAt(Exec(cap, run[..i]), run[i], w, result)
  }

  /** In every run a caller's result is the one settled at some step of its waiter: what its last successful query found,
   *  and the empty set only if that found nothing, no permit was free, or the query raised. And what was settled is what
   *  the caller gets. */
  lemma {:induction false} ResultIsWhatWasFound(cap: nat, run: seq<Step>, w: WaiterId, result: set<MessageId>)
    ensures Settled(Exec(cap, run), w, result) <==> exists i: nat :: SettledBy(cap, run, i, w, result)
  {
    if run != [] {
      var last := |run| - 1;
      var s := Exec(cap, run[..last]);
      if w in s.waiters && s.waiters[w].pc.Releasing? { PermitToReturn(cap, run[..last], w); }
      NextSettled(s, run[last], w, result);
      ResultIsWhatWasFound(cap, run[..last], w, result);
      forall i: nat | i < last ensures SettledBy(cap, run, i, w, result) <==> SettledBy(cap, run[..last], i, w, result) {
        assert run[..last][..i] == run[..i];
      }
      assert SettledBy(cap, run, last, w, result) <==> SettlesAt(s, run[last], w, result);
    }
  }

  /** A poster's signal reaches the result. Whoever was waiting on the channel, between its capture and its second query,
   *  gets what was settled after the signal: a query made then, which finds every live match, the posted message
   *  among them; or nothing, if no permit was free or that query raised. */
  lemma SignalReachesResult(cap: nat, run: seq<Step>, p: PosterId, w: WaiterId, more: seq<Step>) returns (i: nat)
    requires var s := Exec(cap, run);
             && p in s.posters && s.posters[p].ToSignal?
             && w in s.waiters && (s.waiters[w].pc.Captured? || Waiting(s.waiters[w].pc))
    requires var end := Exec(cap, run + [Signal(p)] + more); w in end.waiters && end.waiters[w].pc.Returned?
    ensures |run| < i && SettledBy(cap, run + [Signal(p)] + more, i, w, Exec(cap, run + [Signal(p)] + more).waiters[w].pc.result)
  {
    var whole := run + [Signal(p)] + more;
    var result := Exec(cap, whole).waiters[w].pc.result;
    ResultIsWhatWasFound(cap, whole, w, result);
    i :| SettledBy(cap, whole, i, w, result);
    assert whole[..|run|] == run && whole[|run|] == Signal(p);
    if i < |run| {
      assert run[..i] == whole[..i];
      assert SettledBy(cap, run, i, w, result);
      ResultIsWhatWasFound(cap, run, w, result);
    }
  }

  /** Permits in use and permits free always add up to the cap, so releasing one never raises, and the waiters between
   *  acquire and release never outnumber it; when every request has returned all permits are back. */
  lemma PermitsConserved(cap: nat, run: seq<Step>)
    ensures var s := Exec(cap, run);
            && s.permits + |Holders(s)| == cap
            && (forall w :: w in s.waiters ==> !s.waiters[w].pc.Crashed?)
            && (forall w :: w in s.waiters && Holds(s.waiters[w].pc) ==> ReturnPermit(s.permits, cap).Some?)
            && ((forall w :: w in s.waiters ==> s.waiters[w].pc.Returned?) ==> s.permits == cap)
  {
    Reachable(cap, run);
    var s := Exec(cap, run);
    forall w | w in s.waiters && Holds(s.waiters[w].pc) ensures s.permits < cap {
      SubsetSize({w}, Holders(s));
    }
    if forall w :: w in s.waiters ==> s.waiters[w].pc.Returned? {
      assert Holders(s) == {};
    }
  }

  const POSTED := Msg(0, 1, 2)
  const UNCLAIMED := Query(0, None, None, Some(false))
  const CLAIMED_AWAY: seq<Step> := [Commit(0, POSTED), Signal(0), Flip(0)]
  const PARK: seq<Step> := [Capture(7, UNCLAIMED, true), FirstQuery(7), Acquire(7), Test(7, false)]

  lemma ClaimedAway()
    ensures Exec(1, CLAIMED_AWAY) == State(map[0 := POSTED], {0}, 1, map[0 := 1], 1, 1, map[0 := Signalled], map[])
  {
    Unroll(1, [], Commit(0, POSTED));
    Unroll(1, [Commit(0, POSTED)], Signal(0));
    Unroll(1, [Commit(0, POSTED), Signal(0)], Flip(0));
    assert CLAIMED_AWAY == [Commit(0, POSTED), Signal(0)] + [Flip(0)];
    assert [] + [Commit(0, POSTED)] == [Commit(0, POSTED)];
    assert [Commit(0, POSTED)] + [Signal(0)] == [Commit(0, POSTED), Signal(0)];
  }

  lemma FindsNone(s: State, q: Query)
    requires s.live.Keys == {0} && !Matches(s, 0, q)
    ensures Found(s, q) == {}
  {
  }

  lemma ParkedNow()
    ensures Exec(1, CLAIMED_AWAY + PARK)
            == State(map[0 := POSTED], {0}, 1, map[0 := 1], 0, 1, map[0 := Signalled], map[7 := Waiter(UNCLAIMED, true, Parked(1), {})])
  {
    ClaimedAway();
    var r := CLAIMED_AWAY;
    var s := Exec(1, r);
    FindsNone(Next(s, PARK[0]), UNCLAIMED);
    Unroll(1, r, PARK[0]);
    Unroll(1, r + [PARK[0]], PARK[1]);
    Unroll(1, r + [PARK[0]] + [PARK[1]], PARK[2]);
    Unroll(1, r + [PARK[0]] + [PARK[1]] + [PARK[2]], PARK[3]);
    assert r + PARK == r + [PARK[0]] + [PARK[1]] + [PARK[2]] + [PARK[3]];
  }

  /** The wakeup covers new messages only: with status=unclaimed, a release makes a message match and wakes nobody. */
  lemma ReleaseWakesNobody()
    ensures var s := Exec(1, CLAIMED_AWAY + PARK + [Flip(0)]);
            && 7 in s.waiters && s.waiters[7].pc.Parked? && 0 in s.live && Matches(s, 0, s.waiters[7].query)
            && forall p :: p in s.posters ==> s.posters[p].Signalled?
  {
    ParkedNow();
    Unroll(1, CLAIMED_AWAY + PARK, Flip(0));
  }

  lemma Unroll(cap: nat, run: seq<Step>, step: Step)
    ensures Exec(cap, run + [step]) == Next(Exec(cap, run), step)
  {
    assert (run + [step])[..|run|] == run;
  }

  // ---------- the program of a waiter ----------

  /** The step a waiter is due to take; `late` and `fails` are its clock reading and its query's outcome. */
  datatype Slot = Slot(glance: Glance, late: bool, fails: bool)

  function Due(pc: Pc, slot: Slot): Step {
    match pc
    case Captured(_) => FirstQuery(0)
    case NeedPermit(_) => Acquire(0)
    case Entering(_) => Test(0, slot.late)
    case Parked(_) => Wake(0)
    case Notified(_) => Wake(0)
    case Requerying => SecondQuery(0, slot.fails)
    case _ => GiveBack(0)
  }

  predicate Over(pc: Pc) { pc.Returned? || pc.Crashed? }

  /** A waiter's own turns, one after the other, whatever the others do to the shared state in between: where it gets,
   *  and the permits free after its last turn; `free` are those before its first. */
  function Walk(cap: nat, w: Waiter, free: nat, slots: seq<Slot>): (Waiter, nat)
    decreases |slots|
  {
    if slots == [] || Over(w.pc) then (w, free)
    else
      var (after, left) := TurnOn(slots[0].glance, cap, w, Due(w.pc, slots[0]));
      Walk(cap, after, left, slots[1..])
  }

  lemma {:induction false} WalkOn(cap: nat, w: Waiter, free: nat, slots: seq<Slot>, slot: Slot)
    ensures var at := Walk(cap, w, free, slots);
            Walk(cap, w, free, slots + [slot])
            == if Over(at.0.pc) then at else TurnOn(slot.glance, cap, at.0, Due(at.0.pc, slot))
    decreases |slots|
  {
    if slots == [] {
      assert slots + [slot] == [slot] && [slot][1..] == [];
    } else if !Over(w.pc) {
      assert (slots + [slot])[1..] == slots[1..] + [slot];
      var (after, left) := TurnOn(slots[0].glance, cap, w, Due(w.pc, slots[0]));
      WalkOn(cap, after, left, slots[1..], slot);
    }
  }

  /** The same program point; being notified is the other threads' doing. */
  predicate SamePoint(a: Waiter, b: Waiter) {
    a.query == b.query && a.waits == b.waits
    && (a.pc == b.pc || (a.pc.Notified? && b.pc.Parked? && a.pc.seen == b.pc.seen))
  }

  /** A turn does not look at the history variable, and being notified changes nothing about it. */
  lemma TurnSame(g: Glance, cap: nat, a: Waiter, b: Waiter, step: Step, slot: Slot)
    requires SamePoint(a, b) && slot == Slot(g, step.Test? && step.deadlinePassed, step.SecondQuery? && step.fails)
    ensures
      var ((at, free), (bt, left)) := (TurnOn(g, cap, a, step), TurnOn(g, cap, b, Due(b.pc, slot)));
      (SamePoint(at, b) && free == g.permits) || (!Over(b.pc) && SamePoint(at, bt) && free == left)
  {
  }

  /** Others do not move a waiter, except that a parked one is notified. */
  lemma OthersStep(s: State, step: Step, w: WaiterId)
    requires w in s.waiters && (Environment(step) || step.w != w)
    ensures w in Next(s, step).waiters
    ensures forall b: Waiter :: SamePoint(s.waiters[w], b) ==> SamePoint(Next(s, step).waiters[w], b)
  {
  }

  /** A waiter's own step is the next turn of its walk, and leaves the semaphore as that turn does; or it does nothing. */
  lemma OwnStep(s: State, step: Step, w: WaiterId, start: Waiter, free: nat, slots: seq<Slot>) returns (more: seq<Slot>)
    requires w in s.waiters && !Environment(step) && step.w == w && SamePoint(s.waiters[w], Walk(s.cap, start, free, slots).0)
    ensures w in Next(s, step).waiters && SamePoint(Next(s, step).waiters[w], Walk(s.cap, start, free, more).0)
    ensures Next(s, step).permits == if more == slots then s.permits else Walk(s.cap, start, free, more).1
  {
    var at := Walk(s.cap, start, free, slots).0;
    var g := Glance(s.versions, s.permits, Found(s, s.waiters[w].query));
    var slot := Slot(g, step.Test? && step.deadlinePassed, step.SecondQuery? && step.fails);
    TurnSame(g, s.cap, s.waiters[w], at, step, slot);
    WalkOn(s.cap, start, free, slots, slot);
    more := if SamePoint(Next(s, step).waiters[w], at) && Next(s, step).permits == s.permits then slots else slots + [slot];
  }

  lemma KeepsRequest(s: State, step: Step, w: WaiterId)
    requires w in s.waiters
    ensures w in Next(s, step).waiters && s.cap == Next(s, step).cap
    ensures Next(s, step).waiters[w].query == s.waiters[w].query && Next(s, step).waiters[w].waits == s.waiters[w].waits
  {
  }

  /** In every run each waiter is where a walk of its own turns takes it, from the version it captured. */
  lemma {:induction false} EveryWaiterWalks(cap: nat, run: seq<Step>, w: WaiterId) returns (seen: nat, slots: seq<Slot>)
    requires w in Exec(cap, run).waiters
    ensures var now := Exec(cap, run).waiters[w];
            SamePoint(now, Walk(cap, Waiter(now.query, now.waits, Captured(seen), {}), cap, slots).0)
  {
    var (s, step) := (Exec(cap, run[..|run| - 1]), run[|run| - 1]);
    if w !in s.waiters {
      seen, slots := Version(s.versions, step.query.channel), [];
    } else {
      seen, slots := EveryWaiterWalks(cap, run[..|run| - 1], w);
      var start := Waiter(s.waiters[w].query, s.waiters[w].waits, Captured(seen), {});
      Reachable(cap, run[..|run| - 1]);
      KeepsRequest(s, step, w);
      if Environment(step) || step.w != w { OthersStep(s, step, w); } else { slots := OwnStep(s, step, w, start, cap, slots); }
    }
  }

  lemma WalkStep(cap: nat, w: Waiter, free: nat, slots: seq<Slot>, k: nat)
    requires k < |slots| && !Over(w.pc)
    ensures var (after, left) := TurnOn(slots[k].glance, cap, w, Due(w.pc, slots[k]));
            Walk(cap, w, free, slots[k..]) == Walk(cap, after, left, slots[k + 1..])
  {
    assert slots[k..][1..] == slots[k + 1..];
  }

  // ---------- what the program answers ----------

  /** At this turn the waiting loop is left: the version has moved on or the time is up. */
  predicate Leaves(slot: Slot, c: ChannelId, seen: nat) {
    slot.late || seen != if c in slot.glance.versions then slot.glance.versions[c] else 0
  }

  /** Slot `j` is the first test, every second slot from `from` on being one, that leaves the loop. */
  predicate FirstToLeave(slots: seq<Slot>, from: nat, j: nat, c: ChannelId, seen: nat) {
    && from <= j < |slots| && (j - from) % 2 == 0 && Leaves(slots[j], c, seen)
    && forall i :: from <= i < j && (i - from) % 2 == 0 ==> !Leaves(slots[i], c, seen)
  }

  /** The query after the loop is left, and then the release. */
  ghost predicate AnswersAfterWait(slots: seq<Slot>, from: nat, c: ChannelId, seen: nat, result: set<MessageId>) {
    exists j: nat :: FirstToLeave(slots, from, j, c, seen) && j + 2 < |slots|
                     && result == if slots[j + 1].fails then {} else slots[j + 1].glance.found
  }

  /** What a call that returns gives its caller, told from what its turns saw. */
  ghost predicate Answers(query: Query, waits: bool, seen: nat, slots: seq<Slot>, result: set<MessageId>) {
    && |slots| > 0
    && if slots[0].glance.found != {} || !waits then result == slots[0].glance.found
       else |slots| > 1 && if slots[1].glance.permits == 0 then result == {}
                           else AnswersAfterWait(slots, 2, query.channel, seen, result)
  }

  lemma QueryAnswers(cap: nat, w: Waiter, free: nat, slots: seq<Slot>)
    requires w.pc == Requerying && Walk(cap, w, free, slots).0.pc.Returned?
    ensures |slots| > 1 && Walk(cap, w, free, slots).0.pc.result == if slots[0].fails then {} else slots[0].glance.found
  {
    var (next, left) := TurnOn(slots[0].glance, cap, w, Due(w.pc, slots[0]));
    assert Walk(cap, w, free, slots) == Walk(cap, next, left, slots[1..]);
    assert slots[1..] != [];
    var (end, freed) := TurnOn(slots[1].glance, cap, next, Due(next.pc, slots[1]));
    assert Walk(cap, next, left, slots[1..]) == Walk(cap, end, freed, slots[1..][1..]);
  }

  lemma {:induction false} LoopAnswers(cap: nat, w: Waiter, free: nat, slots: seq<Slot>)
    requires w.pc.Entering? && Walk(cap, w, free, slots).0.pc.Returned?
    ensures AnswersAfterWait(slots, 0, w.query.channel, w.pc.seen, Walk(cap, w, free, slots).0.pc.result)
    decreases |slots|
  {
    var (c, seen, result) := (w.query.channel, w.pc.seen, Walk(cap, w, free, slots).0.pc.result);
    var (next, left) := TurnOn(slots[0].glance, cap, w, Due(w.pc, slots[0]));
    assert Walk(cap, w, free, slots) == Walk(cap, next, left, slots[1..]);
    if Leaves(slots[0], c, seen) {
      QueryAnswers(cap, next, left, slots[1..]);
      assert FirstToLeave(slots, 0, 0, c, seen);
    } else {
      assert slots[1..] != [] && slots[1..][1..] == slots[2..];
      var (again, freed) := TurnOn(slots[1].glance, cap, next, Due(next.pc, slots[1]));
      assert Walk(cap, next, left, slots[1..]) == Walk(cap, again, freed, slots[2..]);
      LoopAnswers(cap, again, freed, slots[2..]);
      var j: nat :| FirstToLeave(slots[2..], 0, j, c, seen) && j + 2 < |slots[2..]|
                    && result == if slots[2..][j + 1].fails then {} else slots[2..][j + 1].glance.found;
      LaterToLeave(slots, j, c, seen);
    }
  }

  lemma LaterToLeave(slots: seq<Slot>, j: nat, c: ChannelId, seen: nat)
    requires |slots| >= 2 && FirstToLeave(slots[2..], 0, j, c, seen) && !Leaves(slots[0], c, seen)
    ensures FirstToLeave(slots, 0, j + 2, c, seen)
  {
    forall i | 0 <= i < j + 2 && i % 2 == 0 ensures !Leaves(slots[i], c, seen) {
      if i >= 2 { assert slots[i] == slots[2..][i - 2]; }
    }
  }

  /** What a long poll returns is what its last query saw: the first one if that found something or the caller does not
   *  wait, the one made when the loop was first left otherwise; nothing if that raised or no permit was free. */
  lemma WalkAnswers(cap: nat, query: Query, waits: bool, seen: nat, free: nat, slots: seq<Slot>)
    requires Walk(cap, Waiter(query, waits, Captured(seen), {}), free, slots).0.pc.Returned?
    ensures Answers(query, waits, seen, slots, Walk(cap, Waiter(query, waits, Captured(seen), {}), free, slots).0.pc.result)
  {
    var w := Waiter(query, waits, Captured(seen), {});
    var result := Walk(cap, w, free, slots).0.pc.result;
    var (asked, left) := TurnOn(slots[0].glance, cap, w, Due(w.pc, slots[0]));
    assert Walk(cap, w, free, slots) == Walk(cap, asked, left, slots[1..]);
    if asked.pc.NeedPermit? {
      assert slots[1..] != [] && slots[1..][1..] == slots[2..];
      var (entered, freed) := TurnOn(slots[1].glance, cap, asked, Due(asked.pc, slots[1]));
      assert Walk(cap, asked, left, slots[1..]) == Walk(cap, entered, freed, slots[2..]);
      if entered.pc.Entering? {
        LoopAnswers(cap, entered, freed, slots[2..]);
        var j: nat :| FirstToLeave(slots[2..], 0, j, query.channel, seen) && j + 2 < |slots[2..]|
                      && result == if slots[2..][j + 1].fails then {} else slots[2..][j + 1].glance.found;
        Shifted(slots, j, query.channel, seen);
      }
    }
  }

  lemma Shifted(slots: seq<Slot>, j: nat, c: ChannelId, seen: nat)
    requires |slots| >= 2 && FirstToLeave(slots[2..], 0, j, c, seen)
    ensures FirstToLeave(slots, 2, j + 2, c, seen)
  {
    forall i | 2 <= i < j + 2 && (i - 2) % 2 == 0 ensures !Leaves(slots[i], c, seen) {
      assert slots[i] == slots[2..][i - 2];
    }
  }

  /** The shared variables of the store. Between two turns of a waiter other threads change them as they like. */
  class Notifier {
    const maxWaiters: nat
    var versions: Versions
    var permits: nat

    /** The semaphore has at least one permit, whatever the configuration says. */
    constructor (configured: int)
      ensures versions == map[] && permits == maxWaiters
      ensures maxWaiters == if configured < 1 then 1 else configured
    {
      maxWaiters := if configured < 1 then 1 else configured;
      permits := if configured < 1 then 1 else configured;
      versions := map[];
    }

    /** _signal_new_message, under the condition's lock. */
    method SignalNewMessage(c: ChannelId, enabled: bool)
      modifies this`versions
      ensures versions == if enabled then Bump(old(versions), c) else old(versions)
    {
      if !enabled { return; }
      versions := versions[c := (if c in versions then versions[c] else 0) + 1];
    }

    /** What the other threads have made of the shared variables by this waiter's next turn. */
    method Meanwhile(g: Glance)
      modifies this`versions, this`permits
      ensures versions == g.versions && permits == g.permits
    {
      versions, permits := g.versions, g.permits;
    }

    /** list_messages past the capture of `seen`: query, take a permit, wait while the version stands and time is left,
     *  query again, give the permit back. It ends early when `slots` does. Wherever it is then, it is where the protocol
     *  puts a waiter after those turns, and the semaphore is as the last of them leaves it. */
    method ListMessages(query: Query, waits: bool, seen: nat, slots: seq<Slot>) returns (pc: Pc)
      modifies this`versions, this`permits
      ensures var (at, free) := Walk(maxWaiters, Waiter(query, waits, Captured(seen), {}), old(permits), slots);
              pc == at.pc && permits == free
      ensures pc.Returned? ==> Answers(query, waits, seen, slots, pc.result)
    {
      ghost var w := Waiter(query, waits, Captured(seen), {});
      if Walk(maxWaiters, w, permits, slots).0.pc.Returned? { WalkAnswers(maxWaiters, query, waits, seen, permits, slots); }
      if |slots| == 0 { return Captured(seen); }
      WalkStep(maxWaiters, w, permits, slots, 0);
      assert slots[0..] == slots;
      Meanwhile(slots[0].glance);
      var found := slots[0].glance.found;
      if found != {} || !waits { return Returned(found); }
      pc := WaitAndQuery(query, waits, seen, slots[1..]);
    }

    method WaitAndQuery(query: Query, waits: bool, seen: nat, slots: seq<Slot>) returns (pc: Pc)
      modifies this`versions, this`permits
      ensures var (at, free) := Walk(maxWaiters, Waiter(query, waits, NeedPermit(seen), {}), old(permits), slots);
              pc == at.pc && permits == free
    {
      ghost var w := Waiter(query, waits, NeedPermit(seen), {});
      if |slots| == 0 { return NeedPermit(seen); }
      WalkStep(maxWaiters, w, permits, slots, 0);
      assert slots[0..] == slots;
      Meanwhile(slots[0].glance);
      var taken := TakePermit(permits);
      if taken.None? { return Returned({}); }
      permits := taken.value;
      var k, changed := 1, false;
      w := w.(pc := Entering(seen));
      while k < |slots| && !changed
        invariant 1 <= k <= |slots|
        invariant w == Waiter(query, waits, if changed then Requerying else Entering(seen), {})
        invariant Walk(maxWaiters, Waiter(query, waits, NeedPermit(seen), {}), old(permits), slots)
                  == Walk(maxWaiters, w, permits, slots[k..])
        decreases |slots| - k, !changed
      {
        WalkStep(maxWaiters, w, permits, slots, k);
        Meanwhile(slots[k].glance);
        changed := Version(versions, query.channel) != seen || slots[k].late;
        k := k + 1;
        if changed {
          w := w.(pc := Requerying);
        } else {
          if k == |slots| { return Parked(seen); }
          WalkStep(maxWaiters, w.(pc := Parked(seen)), permits, slots, k);
          Meanwhile(slots[k].glance);
          k := k + 1;
        }
      }
      if !changed { return Entering(seen); }
      pc := QueryAndRelease(query, waits, slots[k..]);
    }

    method QueryAndRelease(query: Query, waits: bool, slots: seq<Slot>) returns (pc: Pc)
      modifies this`versions, this`permits
      ensures var (at, free) := Walk(maxWaiters, Waiter(query, waits, Requerying, {}), old(permits), slots);
              pc == at.pc && permits == free
      ensures pc.Returned? ==> |slots| > 1 && pc.result == if slots[0].fails then {} else slots[0].glance.found
    {
      ghost var w := Waiter(query, waits, Requerying, {});
      if |slots| == 0 { return Requerying; }
      WalkStep(maxWaiters, w, permits, slots, 0);
      assert slots[0..] == slots;
      Meanwhile(slots[0].glance);
      var result := if slots[0].fails then {} else slots[0].glance.found;
      if |slots| == 1 { return Releasing(result); }
      WalkStep(maxWaiters, w.(pc := Releasing(result)), permits, slots, 1);
      Meanwhile(slots[1].glance);
      var returned := ReturnPermit(permits, maxWaiters);
      if returned.None? { return Crashed; }
      permits := returned.value;
      return Returned(result);
    }
  }
}
