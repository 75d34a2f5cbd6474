# Backchannel: a verified model of the message protocol

Backchannel is a message service for agents: channels, messages with a time to live, exclusive claims with or without
a lease, acknowledgements, an archive, memberships and invitations. This project models its storage layer
(`backchannel/store.py`), its rate limiter (`backchannel/rate_limit.py`) and the parts of its dispatcher that carry
state (`backchannel/http.py`), and proves what the service promises about them.

`dafny verify dfyconfig.toml` checks everything.

## How it is organised

| file | content |
|---|---|
| `Common.dfy` | options, time in microseconds, two facts on finite sets |
| `Tables.dfy` | the message tables and the effect of every atomic database step on them |
| `Protocol.dfy` | a state machine over arbitrarily interleaved requests, with a history of what each step did |
| `Claims.dfy`, `ClaimTimes.dfy` | exclusive holds, the claim ledger, lease tokens; the order of claim events by time |
| `Requests.dfy` | what claim, release, acknowledgement, heartbeat and sweep answer and leave, told from the rows alone |
| `AckSafety.dfy` | when an acknowledgement protects a claim; the two recovery paths |
| `Lifecycle.dfy` | the ring buffer; what becomes of each post, in every interleaving |
| `Postings.dfy` | the same for post, retract, channel delete and cleanup; what was posted is what is kept |
| `Archiving.dfy` | when a message is archived more than once, or retracted under its holder; its one fate when requests do not overlap; conservation |
| `Throttle.dfy` | the per-channel write throttle over whole runs |
| `Paging.dfy`, `Workers.dfy` | cursor walks and the queue-drain verb; the verb among other workers' requests |
| `Store.dfy` | the message half of the store as a class whose methods are proved against `Tables` |
| `LongPoll.dfy` | version counter, condition variable and semaphore of the long poll; the waiting loop |
| `RateLimit.dfy` | the sliding-window limiter as a class, against a log that is never pruned |
| `Idempotency.dfy` | the idempotency cache and the part of `dispatch` that uses it |
| `Timestamps.dfy` | calendar, ISO texts, and their order |
| `Schema.dfy` | the recursive metadata validator |
| `Membership.dfy`, `Admission.dfy` | members, invitations, access requests and their event log; the same with requests in flight |
| `ChannelRequests.dfy` | what each membership request answers and leaves; rulings and revocations stand |
| `ChannelStore.dfy` | the membership half of the store as a class |

A class is the source's object: its fields are the tables, and each method's postcondition equates the new tables and
the answer with a function of the old ones. The protocol modules prove properties of those same functions, over all
runs and all interleavings. Modules `Requests`, `Postings` and `ChannelRequests` state, for every table, exactly when
each of those functions gives which answer and what it leaves, with every condition, constant and column written out.

## What one step is

- Claim and claim-with-lease are four steps (read the row, check the channel, decide, guarded UPDATE with its event).
  The sweep is a SELECT followed by one re-guarded UPDATE per row. Retract is three steps (read the row, check, archive
  and DELETE by identifier alone). A cleanup is two (the listing, which precedes its first INSERT, and the transaction).
  A request keeps its program counter, the rows it read and the clock value it captured; any other request may run in
  between. `Protocol.ClaimIsWhole`, `SweepIsWhole`, `RetractIsWhole` and `CleanIsWhole` tie the steps to the
  uninterrupted requests.
- Resolving an invitation, issuing one and deciding an access request are two steps each, the read with its checks and
  the write (module `Admission`).
- Assumed to be one step each: post, heartbeat, release, ack and channel delete; adding and removing a member, revoking
  an invitation and asking for access; the membership part of a cleanup. For release, ack, heartbeat, revoking and the
  throttle count of a post this is an assumption about the code, whose final write carries no re-check; adding,
  removing and deleting rest on the channel's owner, which never changes.
- The clock does not go back and is read once per atomic step. Identifiers and lease tokens are never reused.
- Who is calling, and whether they may use the channel, are inputs of the message requests (`allowed`, `owner`);
  `Membership.CanAccess` models the decision itself.
- The history records what a step did by the rule of that step, from the tables before it; every theorem about the
  history is a statement about what the tables became.
- In the long poll, a commit and its signal are separate steps of the poster; capture, query, acquire, version test,
  park, wake, re-query and release are separate steps of the waiter. A query's result is the set of all matching
  messages; the page size is left to `Paging`.

## Where the code and its documentation disagree

The model follows the code.

- `docs/reliability.md` gives a minimum lease of 5 seconds; the code accepts 30 to 3600.
- It promises `404 lease_not_found` for a dead token and `409 already_claimed` for a second release; the code answers
  `410 lease_expired` and `409 not_claimed`.
- It says reading a channel clears an expired lease; only a sweep, a cleanup or a new claim does.
- It says a cleared claim invalidates its token. A release clears the claim but not the lease: `Claims.ReleasedLeaseBeats`.

## Promises that hold under a condition

- An acknowledgement protects a claim from takeover, sweeps and cleanup, except against a claim that passed its check,
  or a sweep that listed the row, before the ack. `AckSafety.AckProtectsIff` gives the exact condition,
  `AckSafety.AckedClaimLost` a run that violates it, `AckSafety.AtomicAckProtects` the unconditional result for
  uninterrupted requests.
- A message that has left the table can be archived again exactly when a retract or cleanup that read it is still in
  flight and will not be refused (`Archiving.ArchivedAgainIff`); `Archiving.ArchivedTwice` gives the run, and
  `Archiving.OneFate` the unconditional result for requests that do not overlap.
- A retract refuses claimed messages, but removes one that was claimed between its read and its write
  (`Archiving.ClaimedRetracted`). A held message can be retracted under its holder exactly when a retract that read it
  unclaimed is still in flight and will not be refused (`Archiving.HeldTakenIff`); one claimed while no request is in
  flight never is (`Archiving.HeldKeptAfterWhole`).
- A cleanup's counts agree exactly when everything it listed is still there (`Archiving.CountsAgreeIff`).
- Nothing is deleted without being archived, given a positive TTL (`Lifecycle.NothingLost`), and in any channel without
  one something can be (`Archiving.ZeroTtlLoses`). A TTL in a request is checked to lie in 300 to 2592000
  (`backchannel/store.py:707-713`), so only the setting BACKCHANNEL_DEFAULT_TTL_SECONDS, which is not checked
  (`backchannel/store.py:991-994`), can give a channel such a TTL.
- The write throttle counts surviving rows, so it needs a ring buffer at least as large as its limit and no retraction
  of messages under a minute old: `Throttle.WritesThrottled`, `SmallCapDefeatsThrottle`, `RetractionDefeatsThrottle`.
- Ordered by time, the newest claim event names the holder exactly when the claim that holds the message captured its
  time no earlier than any claim granted before it (`ClaimTimes.HolderIsLatestIff`, `StaleTimeHolds`).
- An invitation that was active when it was read seats its caller even if it is revoked before the write
  (`Admission.RevokedStillSeats`).
- A client key spelled like a synthesized one reaches that request's cached answer (`Idempotency.ClientKeyCollides`).
- A page skips exactly the messages that share the creation time of its last row: `Paging.SkippedIffTied`.
- The long poll wakes for new messages only: with `status=unclaimed` a release wakes nobody (`LongPoll.ReleaseWakesNobody`).
- `parse_timestamp_or_none` promises None for every unusable text; it raises for a date that its offset carries out of
  years 1 to 9999, which needs the first or the last day of that range (`Timestamps.LenientIff`).
- A nested violation's field is the prefixed path, except that without a prefix an empty key leaves no trace
  (`Schema.FieldIsPrefixedPath`, `Schema.EmptyKeyReportsRoot`).

## Model

| member | source | states |
|---|---|---|
| Claims.ExclusiveHold | backchannel/store.py:1387-1446 | In every interleaving, between two successful claims of one message lies an end of the first hold: its holder's release, or a sweep, cleanup or takeover whose captured time is not before the lease end then in force |
| Claims.PlainClaimStays | backchannel/store.py:1417-1422 | A claim without a lease is still what the row shows, holder and time, until its holder releases it or the row is gone |
| Claims.Ledger | backchannel/store.py:1417-1443 | For every live message of every run: claim events minus endings is 1 if claimed and 0 otherwise, the claim event inserted last names the holder and `claimed_at`, a holder has a key, and token and lease end are null together |
| Claims.LeaseChain | backchannel/store.py:1525-1546 | An accepted heartbeat's token was issued by the latest claim of its message, nothing superseded it, and the lease in force was unexpired at every moment from the grant on |
| Claims.TokenDead | backchannel/store.py:1500-1508 | A token superseded by a claim, swept, cleaned up or once expired is never accepted again |
| Claims.ReleasedLeaseBeats | backchannel/store.py:1463-1466 | After a release the message is unclaimed but its unexpired lease token still beats |
| Claims.ClaimSucceedsIff | backchannel/store.py:1471-1523 | The four steps of a claim, uninterrupted, end in a grant exactly when the tables allow it, including the takeover of an expired, unacked lease; the guarded UPDATE then never loses |
| Claims.ClaimLeaves | backchannel/store.py:1417-1446 | That grant leaves claimer, clock and key on the row, an event naming the holder displaced if that was someone else, a token and an end for a lease only, and every other row and column as it was |
| Claims.LeaseTokenIsNew | backchannel/store.py:1501 | The token of a new lease differs from every token the history ever issued |
| Claims.Reachable | backchannel/store.py:1548-1572 | The protocol invariant holds in every world that interleaved claims, heartbeats, releases, acks, sweeps, posts, retracts, cleanups and deletions can reach |
| Requests.ClaimAnswers | backchannel/store.py:1387-1446 | The answer to an uninterrupted claim, for every table: the present holder repeating its plain claim is told so and whether the log holds an ack, 409 `already_claimed` goes to everyone else exactly while the holder cannot be displaced, a grant is made exactly otherwise, and only a grant changes anything |
| Requests.CheckDecides | backchannel/store.py:1399-1415 | In any interleaving the check of a claim goes by the holder and lease of the row read earlier and the acks there are now; the repeated plain claim of a message gone since answers 404 |
| Requests.ReleaseAnswers | backchannel/store.py:1448-1469 | A release succeeds exactly for the holder of an unexpired message in a claimable channel it may use, leased or not; it clears holder, time and key and nothing else; every other answer changes nothing |
| Requests.ReleaseUndoesClaim | backchannel/store.py:1463-1469 | In every reachable world a claim and its release leave the message free, the tables as they were but for the event and the lease, and the next claim by anyone with access is granted |
| Requests.LeaseOutlivesRelease | backchannel/store.py:1463-1466 | After every lease that is released at once, the token of the free message is still accepted |
| Requests.ReleasedLeaseRun | backchannel/store.py:1463-1466 | A run from the start: post, lease for 30 seconds, release, heartbeat accepted |
| Requests.AckAnswers | backchannel/store.py:1339-1381 | An admitted ack is a first one exactly when the log has none of this actor; it then adds that one event and otherwise changes nothing; the refusals, each exactly |
| Requests.OneAckEach | backchannel/store.py:1352-1375 | In every interleaving an actor has at most one ack event on a live message |
| Requests.AckedOnceForAll | backchannel/store.py:1352-1381 | After an admitted ack the log holds exactly one of that actor in every continuation for as long as the message is there, and acknowledging again changes nothing |
| Requests.HeartbeatAnswers | backchannel/store.py:1525-1546 | In every reachable world a heartbeat is accepted exactly when a row carries the token with its lease running and the seconds are 30 to 3600; that lease then ends so many seconds from now, and nothing else changes |
| Requests.SweepFrees | backchannel/store.py:1548-1572 | An uninterrupted sweep lists and frees exactly the held messages without an ack whose lease has run out, of holder, time, key and lease |
| Requests.SweepReports | backchannel/store.py:1563-1572 | Its count is the number of messages it listed |
| ClaimTimes.HolderIsLatestIff | backchannel/store.py:1399-1443 | No claim event of a held message is later than `claimed_at` if and only if the holding claim captured its time no earlier than every earlier grant |
| ClaimTimes.HolderIsLatestOneAtATime | backchannel/store.py:1398-1443 | With requests one at a time the holder's claim event is the newest by time as well |
| ClaimTimes.StaleTimeHolds | backchannel/store.py:1398-1422 | A run in which the newest claim event by time names an actor that does not hold the message |
| Protocol.ClaimIsWhole | backchannel/store.py:1387-1446 | The four steps of a claim, with nothing in between, change the tables and answer as the whole request does |
| Protocol.SweepIsWhole | backchannel/store.py:1553-1572 | The sweep's SELECT and UPDATEs, with nothing in between, are one pass over the selected rows |
| Protocol.RetractIsWhole | backchannel/store.py:1574-1634 | Read, checks and transaction of a retract, with nothing in between, are the whole request |
| Protocol.CleanIsWhole | backchannel/store.py:1877-2050 | Listing and transaction of a cleanup, with nothing in between, are one cleanup with equal archived and deleted counts, or no change when it fails |
| AckSafety.AckProtectsIff | backchannel/store.py:1400-1415 | A held, acked message can be taken from its holder without a release if and only if a claim past its read or check, or a sweep that listed it, is in flight and the lease is within its reach |
| AckSafety.AckProtects | backchannel/store.py:1556-1561 | Without such a request the hold survives every interleaving past any lease expiry, until release or removal of the row |
| AckSafety.AtomicAckProtects | backchannel/store.py:1489-1498 | With requests one at a time, an acked claim keeps its holder across takeovers, sweeps and cleanups until its holder releases it or the row is removed |
| AckSafety.AckedClaimLost | backchannel/store.py:1401-1422 | A concrete interleaving in which an acked claim is taken over by a claim that had already passed its check |
| AckSafety.RecoveryPathsAgree | backchannel/store.py:2034-2042 | On a message that outlives the cleanup, the cleanup's bulk release and the sweep leave the same holder, claim time and openness to claims at every instant, in every reachable state |
| AckSafety.RecoveryPathsDifferInKey | backchannel/store.py:2035-2042 | The two paths differ in one column: the cleanup leaves the claiming key on the unclaimed row, the sweep clears it |
| AckSafety.SweptRows | backchannel/store.py:1563-1570 | A pass of the sweep changes a row exactly if it is listed and its lease is expired |
| Lifecycle.EveryFate | backchannel/store.py:1105-1123 | In every interleaving each post leaves the table once, by ring buffer, channel delete, or the DELETE of a retract or cleanup; its archive rows, kept or purged, are one for that DELETE and one for each row written after it had left; all of them are the post, unedited |
| Lifecycle.RetentionRules | backchannel/store.py:2066-2085 | A row leaves the archive exactly when a cleanup commits after that row's retention has passed |
| Lifecycle.PurgedRows | backchannel/store.py:2066-2085 | What a cleanup purges was archived, before or by it, as it was posted, and its retention has passed |
| Lifecycle.NothingLost | backchannel/store.py:1908-1964 | With positive TTLs, whatever a cleanup deletes it archives in the same transaction, as posted and with its events, and the row stays unless its channel retains nothing |
| Archiving.ArchivedAgainIff | backchannel/store.py:1574-1634 | A message that has left the table can be archived again if and only if a retract or cleanup that read it is in flight and will not be refused |
| Archiving.ArchivedTwice | backchannel/store.py:1575-1625 | Any live unclaimed message can be archived twice, by two retracts that both read it first and both succeed |
| Archiving.ClaimedRetracted | backchannel/store.py:1580-1625 | A message claimed between a retract's read and its write is removed under its holder |
| Archiving.HeldTakenIff | backchannel/store.py:1576-1625 | From a world where a message is held, some continuation retracts it while it is still held if and only if a retract that read it unclaimed is in flight and will not be refused |
| Archiving.HeldKeptAfterWhole | backchannel/store.py:1580-1581 | A message held when no request is in flight is never retracted under its holder, whatever interleaving follows |
| Archiving.OneFate | backchannel/store.py:1574-1643 | With requests one at a time each posted message is in exactly one of: live, archived once as posted, purged from the archive, trimmed, dropped with its channel |
| Archiving.OneFateIff | backchannel/store.py:1877-2095 | A message that has left with one fate keeps exactly one in every continuation if and only if no retract or cleanup that read it is in flight and will not be refused |
| Archiving.FatesAndStrays | backchannel/store.py:1877-2095 | In any interleaving, with positive TTLs, a message has one fate more than archive rows written after it had left |
| Archiving.Conservation | backchannel/store.py:1877-2095 | In every interleaving the posts are the live, trimmed and dropped messages and those a retract or cleanup deleted, and the archive rows written are those kept and those purged |
| Archiving.ConservationOneAtATime | backchannel/store.py:1877-2095 | With requests one at a time posts equal live, archived, purged, trimmed and dropped messages together |
| Archiving.CountsAgreeIff | backchannel/store.py:2043-2047 | A cleanup's archived count equals its purged count if and only if everything it listed is still there when it deletes |
| Archiving.ZeroTtlLoses | backchannel/store.py:1878-1887 | In every reachable world, a post to a channel with a TTL of zero or less, made between a cleanup's listing and its transaction, is deleted without an archive row |
| Lifecycle.RingBuffer | backchannel/store.py:1105-1123 | After a post to a channel with cap n the survivors are the newest min(n, count) by insertion, unedited, the new one among them, and other channels lose nothing |
| Lifecycle.RunOrdered | backchannel/store.py:1109-1123 | Rowids of live rows follow insertion order in every reachable state, although freed top rowids are used again |
| Postings.PostAnswers | backchannel/store.py:1018-1057 | A post is accepted exactly when the channel exists, is open to the caller and not paused, fewer than the limit of its messages of the last 60 seconds are there, and the schema passes; each refusal exactly, none changing anything |
| Postings.PostLeaves | backchannel/store.py:1091-1123 | In every reachable world an accepted post adds one row that carries its content, channel, clock and lifetime, held by nobody, above all other rows, and edits none |
| Postings.PostKept | backchannel/store.py:1091-1104 | Whatever follows an accepted post, the history, the live row and every archive row of its message carry the content, channel and times of that request |
| Postings.PostedBySomeone | backchannel/store.py:1004-1104 | Every message there has ever been was entered by an accepted post of the run |
| Postings.RetractAnswers | backchannel/store.py:1574-1634 | An uninterrupted retract takes exactly an unclaimed message, whatever its age; it archives the row as it stood, without events, and removes that row alone; each refusal exactly |
| Postings.ChannelDeleteAnswers | backchannel/store.py:1636-1643 | The owner, and nobody else, takes the channel and exactly its messages |
| Postings.CleanupLive | backchannel/store.py:2034-2044 | An uninterrupted cleanup of any reachable world deletes exactly the expired messages and frees exactly the unacknowledged ones whose lease has run out, leaving their key |
| Postings.CleanupArchive | backchannel/store.py:1908-2085 | After it the archive holds exactly the rows it held and one complete row for each expired message, of those younger than the retention of their channel, 7 days when that is gone |
| Throttle.WritesThrottled | backchannel/store.py:1031-1044 | With constant limits, a cap that is null or at least the limit, a TTL over a minute and no retraction of messages under a minute old, every 60-second window of a run holds at most `limit` accepted posts |
| Throttle.SmallCapDefeatsThrottle | backchannel/store.py:1031-1044 | With a cap below the limit, any number of posts is accepted in one instant |
| Throttle.RetractionDefeatsThrottle | backchannel/store.py:1031-1044 | In the last free place of a minute, post, retract and post put one post more than the limit into it |
| Paging.SkippedIffTied | backchannel/store.py:1230-1262 | A matching message left out of a page is skipped by the next cursor if and only if it ties with the page's last row |
| Paging.PageHolds | backchannel/store.py:1230-1259 | A page holds nothing but unexpired messages of the channel younger than `since`, of the asked status, expiring before the asked time; and all of them, or the oldest `limit` |
| Paging.InOrder | backchannel/store.py:1230-1262 | Along a walk later calls return strictly younger messages, so none is returned twice |
| Paging.GapFree | backchannel/store.py:1230-1262 | A message that keeps matching is returned by the time the cursor has passed it, also when it arrived mid-walk |
| Paging.WalkEnds | backchannel/store.py:1230-1262 | On a fixed set of n messages call k has n - k*limit left, and its page is empty exactly when that is none |
| Paging.AllReturned | backchannel/store.py:1230-1262 | On a fixed set every message has been returned once k*limit reaches n |
| Paging.DrainInOrder | backchannel/http.py:1511-1538 | Successive drain calls, each by any worker, hand out the queue oldest first, nothing twice, and after the first null only null |
| Paging.DrainMissesNothing | backchannel/http.py:1521-1538 | Whoever calls, whatever was queued has been handed out, has expired, or is still queued |
| Paging.DrainEnds | backchannel/http.py:1526-1538 | After as many calls as the queue was long, by any workers, every message has been handed to one caller or has expired, and every further call answers null |
| Paging.DrainHandsOut | backchannel/http.py:1511-1538 | A drain call hands its caller a free message none older than which is free, and the caller then holds it; it answers null exactly when no message of the channel is free |
| Workers.NoDoubleHandout | backchannel/http.py:1521-1538 | Whatever listings and claims of workers interleave with, of two calls that hand out one message the earlier hold was ended before the later claim was granted |
| Workers.HandedOutWasQueued | backchannel/http.py:1521-1533 | What a call hands out was queued when it listed, and its own claim was granted since |
| Workers.OlderOnesWereBusy | backchannel/http.py:1526-1537 | A call passes over an older candidate only if at some moment of the call it was held or gone, or its channel not claimable |
| Workers.NothingMeansBusy | backchannel/http.py:1526-1538 | A call answers null only if the queue was empty when it listed, or everything on its page was busy during the call |
| Workers.ClaimTrace | backchannel/store.py:1387-1446 | Where a claim begun in a run is at its end; a success is a grant in between, a 409 a moment when the message was held or gone, or its channel not claimable |
| Store.TakeOldest | backchannel/store.py:1247-1262 | A page holds the oldest of the selected rows, in order, as many as fit |
| Store.ListExpired | backchannel/store.py:1879-1887 | The cleanup's listing: exactly the expired rows, each once, in order of expiry |
| Store.PickRowid | backchannel/store.py:1088-1104 | A new row's rowid is one above the largest in use |
| Store.PurgeByChannel | backchannel/store.py:2066-2085 | Deleting channel by channel what each channel no longer retains leaves exactly the rows within their own channel's retention, 7 days for a deleted channel |
| Store.MessageStore.WriteClaim | backchannel/store.py:1417-1444 | The guarded UPDATE and its event, or 409 and no change; lease tokens stay unique |
| Store.MessageStore.ClaimMessage | backchannel/store.py:1383-1446 | New tables and answer are those of the whole plain claim, with every refusal in the source's order |
| Store.MessageStore.ClaimWithLease | backchannel/store.py:1471-1523 | New tables and answer are those of the whole claim with a lease |
| Store.MessageStore.HeartbeatLease | backchannel/store.py:1525-1546 | The lease end of the token's row is moved to now plus the seconds asked, which may shorten it; a dead token changes nothing |
| Store.MessageStore.ReleaseMessage | backchannel/store.py:1448-1469 | The holder's release clears holder, time and key, keeps the lease columns, and refuses everyone else |
| Store.MessageStore.AckMessage | backchannel/store.py:1339-1381 | One ack event per actor, claim or no claim |
| Store.MessageStore.ReclaimExpiredLeases | backchannel/store.py:1548-1572 | The select-then-update loop equals the pass over the selected rows, and the count is their number |
| Store.MessageStore.CreateMessage | backchannel/store.py:1018-1128 | Refusals in order, then the new row and the trimmed channel; rows of other channels stay |
| Store.MessageStore.ArchiveAndDelete | backchannel/store.py:1582-1634 | The transaction of a retract archives the row as it was read and deletes by identifier, whatever has become of it |
| Store.MessageStore.DeleteMessage | backchannel/store.py:1574-1634 | The uninterrupted retract archives the unclaimed message without its events and removes it; a claimed one is refused |
| Store.MessageStore.DeleteChannel | backchannel/store.py:1636-1643 | The owner's delete removes the channel and its messages and leaves the archive |
| Store.MessageStore.CleanupTransaction | backchannel/store.py:1774-1817 | The transaction, from any earlier listing: it commits a cleanup, or, when a row's channel is gone or a fault strikes at any of its statements, leaves the tables as they were and records a failed run |
| Store.MessageStore.ArchiveAndCleanup | backchannel/store.py:1766-1817 | With nothing between listing and transaction a committed run is one cleanup, with equal archived and purged counts |
| Store.MessageStore.CleanupStatements | backchannel/store.py:1908-2085 | Archiving row by row, releasing leases, deleting, and purging the archive channel by channel make one cleanup |
| Store.MessageStore.ListMessages | backchannel/store.py:1264-1282 | A page of the oldest matches and its cursor, or the refusals 422, 404, 403 |
| Store.TaskClaim | backchannel/http.py:1511-1538 | On a claimable channel the verb claims the oldest queued message or answers null with no change; it never answers 409 |
| LongPoll.NoLostWakeup | backchannel/store.py:1271-1302 | In every interleaving, while a waiter is parked its channel's version is the one it captured, and every live match has a signal on the way, unless the match arose from a change of claim status |
| LongPoll.SignalWakes | backchannel/store.py:179-185 | A signal unparks every waiter, and one that captured earlier on that channel fails its version test whenever it runs and then re-queries all live matches |
| LongPoll.ResultIsWhatWasFound | backchannel/store.py:1276-1302 | In every run a caller gets exactly what was settled at a step of its waiter: what its first query found if that was something or it does not wait, what its second query found after the wait, or nothing because no permit was free or that query raised |
| LongPoll.SignalReachesResult | backchannel/store.py:1288-1302 | Whoever is waiting when a signal comes gets what was settled after it, by a query that finds every live match |
| LongPoll.WalkAnswers | backchannel/store.py:1276-1302 | What the program returns, told from what its turns saw: the first query, or the query made when the loop was first left, or nothing |
| LongPoll.PermitsConserved | backchannel/store.py:1288-1302 | Free permits and permits held add up to the cap in every run, so no release ever raises, and all are back when every request has returned |
| LongPoll.ReleaseWakesNobody | backchannel/store.py:1124-1129 | With status=unclaimed, a waiter can stay parked while a released message matches and no signal is due |
| LongPoll.EveryWaiterWalks | backchannel/store.py:1276-1302 | In every run each waiter is where a walk of its own turns takes it from the version it captured, whatever other threads do in between |
| LongPoll.Notifier.ListMessages | backchannel/store.py:1276-1302 | The method with its wait loop is that walk, whatever the shared variables become between its turns, and leaves the semaphore as the walk's last turn does |
| LongPoll.Notifier.WaitAndQuery | backchannel/store.py:1288-1299 | It takes a permit without waiting or returns at once, then tests and parks until the version moved on or the time is up, holding the permit |
| LongPoll.Notifier.QueryAndRelease | backchannel/store.py:1297-1301 | It queries again, also when that raises, and gives the permit back |
| LongPoll.Reachable | backchannel/store.py:1271-1302 | The long-poll invariant holds in every interleaving of posters, removals, claim-status changes and waiters |
| LongPoll.Notifier.constructor | backchannel/store.py:170-177 | The semaphore starts with max(1, configured) permits and no versions |
| LongPoll.Notifier.SignalNewMessage | backchannel/store.py:179-185 | The channel's version grows by one, unless long polling is off |
| RateLimit.EveryWindowBounded | backchannel/rate_limit.py:63-75 | If each event was admitted below the limit of its own window, no window anywhere holds more than the limit |
| RateLimit.SlidingWindowRateLimiter.RetryAfterRefusal | backchannel/rate_limit.py:67-75 | A caller refused by Check and coming back alone `retry_after` seconds later or more is admitted by Check, whatever other subjects checked, tracked or enforced in between |
| RateLimit.SlidingWindowRateLimiter.Prune | backchannel/rate_limit.py:45-51 | What is left in the bucket is exactly the current window of the never-pruned log |
| RateLimit.SlidingWindowRateLimiter.MaybeSweep | backchannel/rate_limit.py:53-61 | Every 1024th call evicts every expired bucket and keeps the agreement with the full log |
| RateLimit.SlidingWindowRateLimiter.Check | backchannel/rate_limit.py:63-75 | Admits exactly when the never-pruned log has fewer than `limit` events in the window ending now |
| RateLimit.SlidingWindowRateLimiter.Track | backchannel/rate_limit.py:77-85 | Records without enforcing and answers what would remain by the full log |
| RateLimit.SlidingWindowRateLimiter.Enforce | backchannel/rate_limit.py:87-103 | Admits as Check does and answers how many more fit |
| RateLimit.SlidingWindowRateLimiter.NeverOverLimit | backchannel/rate_limit.py:63-103 | Whatever was called, pruned and evicted, a subject that is only checked or enforced is within the limit in every window |
| Idempotency.IdempotencyTable.GetIdempotentResponse | backchannel/store.py:1832-1841 | The unexpired cached answer, if any |
| Idempotency.IdempotencyTable.CacheIdempotentResponse | backchannel/store.py:1843-1853 | The answer is cached for 24 hours, replacing any other |
| Idempotency.IdempotencyTable.CleanupIdempotencyCache | backchannel/store.py:1855-1862 | Expired rows go and are counted |
| Idempotency.IdempotencyTable.Dispatch | backchannel/http.py:479-520 | Without a cache row (no authentication, no mutation, or an excluded route without a client key) the handler runs and nothing is cached; otherwise a live answer is replayed, or the handler runs and a success below 300 is cached |
| Idempotency.PurgeInvisible | backchannel/store.py:2064 | Purging expired rows changes no lookup, then or later |
| Idempotency.LookupIsLatest | backchannel/http.py:498-520 | Over any sequential run a lookup finds the latest success under its key if it is under 24 hours old, and nothing otherwise |
| Idempotency.ExecutionsApart | backchannel/http.py:498-520 | Two successful executions under one key are at least 24 hours apart |
| Idempotency.ReplaysLatest | backchannel/http.py:501-511 | A request within 24 hours of the latest success replays its exact status and body; every other request runs |
| Idempotency.AutoKeyInjective | backchannel/http.py:496-497 | Synthesized keys coincide only for equal method, body digest and path |
| Idempotency.SameRowIff | backchannel/http.py:498-499 | Two requests share a cache row exactly when they have one API key and one idempotency key |
| Idempotency.UncachedIff | backchannel/http.py:479-499 | A request is never answered from the cache exactly when it is unauthenticated, mutates nothing, or brings no key and is an ack, claim, release or heartbeat |
| Idempotency.ClientKeyCollides | backchannel/http.py:479-499 | A client key reaches the row of a request without one exactly when it is spelled like its synthesized key |
| Timestamps.StringOrderIsTimeOrder | backchannel/store.py:20-23 | For any two instants of years 1 to 9999 the order of their strings is the order of the instants, although a zero fraction is not written |
| Timestamps.Layout | backchannel/store.py:20-23 | A stored time is written as YYYY-MM-DDTHH:MM:SS, a six-digit fraction if there is one, and +00:00 |
| Timestamps.ZuluSuffixBreaksOrder | backchannel/store.py:20-23 | The same texts ended in "Z" would sort a whole second after its own fractions |
| Timestamps.RoundTrip | backchannel/store.py:26-33 | Reading what was written gives the instant back, with any blanks around it |
| Timestamps.ZuluRoundTrip | backchannel/store.py:27-29 | So does the same text ended in "Z" |
| Timestamps.OffsetsShift | backchannel/store.py:30-33 | A text with an offset denotes the instant that much earlier or later, and overflows outside years 1 to 9999 |
| Timestamps.WrittenInUtc | backchannel/store.py:20-23 | A datetime in any zone is written as the UTC reading of its instant |
| Timestamps.CivilInstant | backchannel/store.py:23 | Every instant of years 1 to 9999 has a valid calendar reading that denotes it |
| Timestamps.CalendarOrder | backchannel/store.py:20-23 | Calendar fields in lexicographic order are instants in order, and distinct readings are distinct instants |
| Timestamps.CursorReads | backchannel/store.py:36-44 | A cursor the service handed out is read back as its instant |
| Timestamps.Canonical | backchannel/store.py:1234-1237 | Re-writing a parsed caller text keeps its instant, so stored strings are compared with a canonical one |
| Timestamps.LenientIff | backchannel/store.py:36-44 | The lenient parser raises exactly for dates, in any layout, that their offset carries out of years 1 to 9999, and then only on the first or last day of that range |
| Timestamps.LenientCanFail | backchannel/store.py:41-44 | The family of such texts: any instant closer to the start of year 1 than its eastern offset |
| Schema.CheckMetadata | backchannel/store.py:1047-1057 | A post's metadata passes exactly when it satisfies the declarative meaning of the schema |
| Schema.TypeFailsIff | backchannel/store.py:87-102 | A value fails its type exactly when that names one of the seven kinds and the value is not of it; a boolean is an integer, both are numbers, and an unknown name asks nothing |
| Schema.NoIssuesIffSatisfied | backchannel/store.py:78-154 | The list of violations is empty if and only if the value satisfies the schema |
| Schema.IssuesAreFaults | backchannel/store.py:78-154 | A violation is listed at a path if and only if the path leads, through declared properties that are present, to a value and schema with that fault |
| Schema.Validate | backchannel/store.py:78-154 | The loop's list is the list of issues in order, each reported under its prefixed path, a wrong type ending the walk |
| Schema.CheckText | backchannel/store.py:104-117 | Length bounds and pattern, in order, an uncompilable pattern being a violation |
| Schema.CheckProperties | backchannel/store.py:136-142 | Nested violations of present properties, in schema order, each under its key |
| Schema.CheckRequired | backchannel/store.py:132-135 | One violation per absent required key, in order |
| Schema.CheckClosed | backchannel/store.py:143-152 | One violation per undeclared key when additional properties are off |
| Schema.ReportUnder | backchannel/store.py:137-142 | Reporting from a nested prefix is reporting the longer path from the outer one |
| Schema.FieldIsPrefixedPath | backchannel/store.py:140 | Below a named prefix a field is that prefix followed by every key of the path |
| Schema.EmptyKeyReportsRoot | backchannel/store.py:99-102 | Without a prefix, a wrong type below an empty key is reported at the root |
| Membership.MembersAreReplay | backchannel/store.py:2184-2191 | In every reachable state a channel's members are the owner updated by the channel's whole live and archived event log in insertion order |
| Membership.MemberIffSeated | backchannel/store.py:844-879 | A key other than the owner is a member exactly when some write seated it and the owner has not removed it since |
| Admission.MemberIffAdmitted | backchannel/store.py:844-879 | In every interleaving a key other than the owner is a member exactly when the owner added it, or it was seated by a write whose read saw the owner approve its undecided request or its invitation active, and the owner has not removed it since |
| Admission.EveryWorld | backchannel/store.py:2184-2191 | In every interleaving members are the replay of the log, the owner is one of them, and no key waits twice |
| Admission.RevokedStillSeats | backchannel/store.py:1669-1675 | An invitation revoked between the read and the write still seats its caller |
| Admission.UninterruptedResolve | backchannel/store.py:1669-1675 | Read and write of a resolved invitation, with nothing in between, are the whole request |
| Admission.UninterruptedDecide | backchannel/store.py:844-879 | So are those of a decision |
| Membership.OwnerStays | backchannel/store.py:1716-1728 | The owner is a member for as long as the channel exists |
| Admission.InvitedByInsider | backchannel/store.py:1645-1667 | Every invitation that can still be resolved was issued, for 24 hours, for a key that could use the channel when it asked |
| Membership.ArchiveIsOlder | backchannel/store.py:2002-2032 | With a clock that does not go back, every archived event was inserted before every live one |
| Membership.NobodyWaitsTwice | backchannel/store.py:808-829 | No key ever has two undecided requests for one channel |
| ChannelRequests.AddAnswers | backchannel/store.py:1701-1714 | The owner, and only the owner, adds a member; whoever it is has a seat and the log says so; each refusal exactly |
| ChannelRequests.RemoveAnswers | backchannel/store.py:1716-1728 | The owner removes exactly anyone but itself |
| ChannelRequests.RemoveUndoesAdd | backchannel/store.py:1701-1728 | Adding a stranger and removing it again leaves the seats as they were |
| ChannelRequests.InviteAnswers | backchannel/store.py:1645-1667 | Exactly the keys that may use the channel issue invitations, for 24 hours |
| ChannelRequests.ResolveAnswers | backchannel/store.py:1669-1675 | An invitation seats and logs whoever resolves it exactly while it is neither revoked nor expired |
| ChannelRequests.RevokeAnswers | backchannel/store.py:1677-1688 | The first revocation is stamped and logged, and its time is never overwritten |
| ChannelRequests.AskAnswers | backchannel/store.py:808-829 | Exactly a stranger to a restricted channel comes to wait, under its first undecided request |
| ChannelRequests.DecideAnswers | backchannel/store.py:844-879 | The owner decides exactly the undecided requests of its channel; the request then says approved or denied as decided, approval seats and logs the requester, denial changes nothing else |
| ChannelRequests.StatusIsLastRuling | backchannel/store.py:851-875 | In every interleaving a request is undecided exactly as long as no decision on it was written, and then says what the latest of them was |
| ChannelRequests.RevokedForGood | backchannel/store.py:1669-1688 | Once revoked or gone, an invitation is refused to whoever reads it later, whatever happens in between, unless its identifier is drawn again |
| ChannelRequests.DropAnswers | backchannel/store.py:1636-1643 | The owner, and nobody else, takes the channel with exactly its seats, live events and invitations |
| ChannelRequests.CleanupMovesEvents | backchannel/store.py:2002-2050 | Exactly the expired events move to the archive, as they stand |
| ChannelRequests.CleanupMovesInvitations | backchannel/store.py:2002-2050 | Exactly the expired and revoked invitations move to the archive, as they stand |
| ChannelRequests.CreateLeaves | backchannel/store.py:725-758 | A new channel has its creator as owner and only member, and no other channel is touched |
| ChannelRequests.AccessAnswers | backchannel/store.py:881-948 | Whoever may use the channel opens or restricts it, and nothing else changes |
| ChannelStore.MembershipStore.CreateChannel | backchannel/store.py:725-758 | The channel exists with its creator as owner and member |
| ChannelStore.MembershipStore.AddChannelMember | backchannel/store.py:1701-1714 | The owner's add seats the key and logs it; everyone else is refused in the source's order |
| ChannelStore.MembershipStore.RemoveChannelMember | backchannel/store.py:1716-1728 | The owner's removal unseats the key and logs it; the owner cannot be removed |
| ChannelStore.MembershipStore.CreateChannelInvitation | backchannel/store.py:1645-1667 | Anyone who may use the channel issues an invitation for 24 hours |
| ChannelStore.MembershipStore.GetChannelInvitation | backchannel/store.py:1669-1675 | Resolving an active invitation seats the caller and logs it; revoked and expired ones are refused |
| ChannelStore.MembershipStore.RevokeChannelInvitation | backchannel/store.py:1677-1688 | The first revocation is recorded and logged; a second changes nothing |
| ChannelStore.MembershipStore.CreateAccessRequest | backchannel/store.py:808-829 | One undecided request per key and channel, a repetition being answered with the first |
| ChannelStore.MembershipStore.ResolveAccessRequest | backchannel/store.py:844-879 | The owner decides an undecided request once; approval seats and logs the requester |
| ChannelStore.MembershipStore.DeleteChannel | backchannel/store.py:1636-1643 | The owner's delete takes members, invitations and live events with the channel and leaves the archive |
| ChannelStore.MembershipStore.CleanupMembership | backchannel/store.py:2002-2050 | Spent invitations and expired events move to the archive, with equal archived and purged counts |
| ChannelStore.MembershipStore.CheckChannelAccess | backchannel/store.py:2168-2182 | Open channel, owner, shared team, or a member by the replay of the object's own log, and nobody else |

## Left out

- Store.MessageStore.CreateMessage: takes the schema verdict and the access verdict as inputs; the content size limit, actor labels, metadata storage and mentions are not in the row.
- Store.MessageStore.AckMessage: ack metadata and labels are not modelled.
- Store.MessageStore.CleanupTransaction: a fault strikes between the statements the model has; those of other tables are not among them.
- ChannelStore.MembershipStore.CreateChannel: only owner, access and team of the configuration matter here; the rest is in `Tables.Channel`.
- Membership.MembersAreReplay: insertion order is the serial of an event; the archive's own row order among events with equal expiry is unspecified in SQLite and not modelled. Which invitation a membership row names is not kept.
- ChannelStore.MembershipStore.CleanupMembership: the listing and the delete are one step, so an invitation revoked or an event archived in between by another cleanup is not covered.
- Schema.Validate: regular-expression search and Python equality are parameters (`Schema.Host`); a keyword of a wrong Python type, where the source ignores it or raises, is outside the schema datatype. Message texts are a datatype, not strings. Numbers are reals, without NaN and infinities.
- Timestamps.OffsetsShift: of the texts `fromisoformat` reads, only YYYY-MM-DDTHH:MM:SS with an optional six-digit fraction and an optional offset in hours and minutes are modelled; what the host makes of other layouts is a parameter (`Timestamps.Reader`). `strip` removes ASCII blanks only.
- RateLimit.SlidingWindowRateLimiter.Check: clock readings are reals, so float rounding is not modelled; the lock makes each call one step.
- Idempotency.IdempotencyTable.Dispatch: requests under one key are sequential, as the cache itself does not serialise them; headers and the UTF-8 encoding of bodies are not modelled.
- LongPoll.SignalWakes: the waiter's deadline is a choice of its test step; the wait cap and fairness of the scheduler are not modelled.
- The refreshed row that claim, release and ack re-read after their commit for the response body.
- SQLite itself: connections, busy timeouts, migrations, foreign keys to actors.
- Webhooks, their signatures, and mention pushes.
- HTTP parsing, routing, headers, pages, OpenAPI and agent guides.
- Keys, hashing, authentication, admin tokens, sessions and settings.
- Actor creation and aliases, channel aliases and links, discovery lists, history listing and metrics.
- Statement-level races inside release, ack, heartbeat and post: each is one step by assumption.
- The sandbox bot, worker timing, client libraries and user interfaces. In the model a channel keeps the TTL it was created with; provisioning the sandbox channel writes that channel's TTL again at every start (`backchannel/store.py:2995-2999`).
