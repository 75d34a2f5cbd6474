/** The idempotency cache and the part of request dispatch that consults it. */
module Idempotency {
  import opened Common

  datatype Response = Response(status: int, body: string)

  datatype Cached = Cached(response: Response, expiresAt: Time)

  type Cache = map<string, Cached>

  // ---------- the table ----------

  function Get(cache: Cache, key: string, now: Time): Option<Response> {
    if key in cache && cache[key].expiresAt > now then Some(cache[key].response) else None
  }

  function Put(cache: Cache, key: string, response: Response, now: Time): Cache {
    cache[key := Cached(response, now + DAY)]
  }

  function Purge(cache: Cache, now: Time): Cache {
    map k | k in cache && cache[k].expiresAt > now :: cache[k]
  }

  /** Purging expired rows changes no lookup, now or later. */
  lemma PurgeInvisible(cache: Cache, at: Time, key: string, now: Time)
    requires at <= now
    ensures Get(Purge(cache, at), key, now) == Get(cache, key, now)
  {
  }

  class IdempotencyTable {
    var rows: Cache

    constructor ()
      ensures rows == map[]
    {
      rows := map[];
    }

    method GetIdempotentResponse(key: string, now: Time) returns (cached: Option<Response>)
      ensures cached == Get(rows, key, now)
    {
      if key !in rows || rows[key].expiresAt <= now { return None; }
      cached := Some(rows[key].response);
    }

    method CacheIdempotentResponse(key: string, response: Response, now: Time)
      modifies this
      ensures rows == Put(old(rows), key, response, now)
    {
      rows := rows[key := Cached(response, now + DAY)];
    }

    method CleanupIdempotencyCache(now: Time) returns (count: nat)
      modifies this
      ensures rows == Purge(old(rows), now) && count == |old(rows)| - |rows|
    {
      var dead := set k | k in rows && rows[k].expiresAt <= now;
      count := |dead|;
      ghost var live := set k | k in rows && rows[k].expiresAt > now;
      assert rows.Keys == dead + live && |rows.Keys| == |dead| + |live|;
      rows := rows - dead;
      assert rows.Keys == live;
    }

    /** A request with a cache row is answered from it while it lives; otherwise its handler runs, and a success is
     *  cached. `outcome` is what the handler answers if it is run at all. */
    method Dispatch(request: HttpRequest, lookupAt: Time, outcome: Response, storeAt: Time) returns (reply: Response, ran: bool)
      modifies this
      ensures
        match CacheKey(request)
        case None => ran && reply == outcome && rows == old(rows)
        case Some(key) =>
          && (ran <==> Get(old(rows), key, lookupAt).None?)
          && reply == (if ran then outcome else Get(old(rows), key, lookupAt).value)
          && rows == Perform(old(rows), Request(key, lookupAt, outcome, storeAt))
    {
      var key := "";
      var mutation := request.verb == "POST" || request.verb == "PATCH" || request.verb == "DELETE";
      if request.keyId.Some? && mutation {
        if request.client != "" {
          key := request.client;
        } else if !AutoSkipped(request.path) {
          key := AutoKey(request.verb, request.digest, request.path);
          assert key[0] == 'a';
        }
      }
      if key != "" {
        key := request.keyId.value + ":" + key;
        var cached := GetIdempotentResponse(key, lookupAt);
        if cached.Some? { return cached.value, false; }
      }
      reply, ran := outcome, true;
      if key != "" && outcome.status < 300 { CacheIdempotentResponse(key, outcome, storeAt); }
    }
  }

  // ---------- which key a request has ----------

  /** `keyId` is None without authentication, `client` the Idempotency-Key header or empty, `digest` the body's. */
  datatype HttpRequest = HttpRequest(keyId: Option<string>, verb: string, path: string, client: string, digest: string)

  predicate EndsWith(s: string, suffix: string) {
    |suffix| <= |s| && s[|s| - |suffix|..] == suffix
  }

  /** Routes whose repeated calls answer differently on purpose. */
  predicate AutoSkipped(path: string) {
    EndsWith(path, "/ack") || EndsWith(path, "/claim") || EndsWith(path, "/claim-with-lease")
    || EndsWith(path, "/release") || EndsWith(path, "/heartbeat")
  }

  const MUTATIONS: set<string> := {"POST", "PATCH", "DELETE"}

  function AutoKey(verb: string, digest: string, path: string): string {
    "auto-" + verb + "-" + digest + "-" + path
  }

  /** The client's own key, else one made from verb, body digest and path. */
  function RequestKey(request: HttpRequest): Option<string> {
    if request.keyId.None? || request.verb !in MUTATIONS then None
    else if request.client != "" then Some(request.client)
    else if AutoSkipped(request.path) then None
    else Some(AutoKey(request.verb, request.digest, request.path))
  }

  function CacheKey(request: HttpRequest): Option<string> {
    match RequestKey(request)
    case None => None
    case Some(key) => Some(request.keyId.value + ":" + key)
  }

  /** The path leads to this action of something. */
  predicate ActsOn(path: string, thing: string, action: string) { path == thing + "/" + action }

  ghost predicate Reaches(path: string, action: string) { exists thing :: ActsOn(path, thing, action) }

  lemma EndingIff(path: string, action: string, suffix: string)
    requires suffix == "/" + action
    ensures EndsWith(path, suffix) <==> Reaches(path, action)
  {
    if EndsWith(path, suffix) {
      assert ActsOn(path, path[..|path| - |suffix|], action);
    }
    forall thing | ActsOn(path, thing, action) ensures EndsWith(path, suffix) {
      assert path == thing + suffix;
    }
  }

  /** Which requests are never answered from the cache: those without authentication, those that mutate nothing, and, if
   *  the client sends no key of its own, acks, claims, releases and heartbeats, whose repetition is answered on purpose. */
  lemma UncachedIff(request: HttpRequest)
    ensures CacheKey(request).None? <==>
              || request.keyId.None?
              || (request.verb != "POST" && request.verb != "PATCH" && request.verb != "DELETE")
              || (request.client == ""
                  && (Reaches(request.path, "ack") || Reaches(request.path, "claim") || Reaches(request.path, "claim-with-lease")
                      || Reaches(request.path, "release") || Reaches(request.path, "heartbeat")))
  {
    EndingIff(request.path, "ack", "/ack");
    EndingIff(request.path, "claim", "/claim");
    EndingIff(request.path, "claim-with-lease", "/claim-with-lease");
    EndingIff(request.path, "release", "/release");
    EndingIff(request.path, "heartbeat", "/heartbeat");
  }

  lemma PrefixUpToColon(a: string, b: string, x: string, y: string)
    requires ':' !in a && ':' !in b && a + ":" + x == b + ":" + y
    ensures a == b && x == y
  {
    var (s, t) := (a + ":" + x, b + ":" + y);
    assert s[|a|] == ':' && t[|b|] == ':';
    assert forall i :: 0 <= i < |a| ==> s[i] == a[i] && s[i] in a;
    assert forall i :: 0 <= i < |b| ==> t[i] == b[i] && t[i] in b;
    assert |a| == |b|;
    assert a == s[..|a|] && b == t[..|a|] && x == s[|a| + 1..] && y == t[|a| + 1..];
  }

  /** Two requests share a cache row exactly when they come from one API key and have one idempotency key. */
  lemma SameRowIff(a: HttpRequest, b: HttpRequest)
    requires CacheKey(a).Some? && CacheKey(b).Some? && ':' !in a.keyId.value && ':' !in b.keyId.value
    ensures CacheKey(a) == CacheKey(b) <==> a.keyId == b.keyId && RequestKey(a) == RequestKey(b)
  {
    if CacheKey(a) == CacheKey(b) {
      PrefixUpToColon(a.keyId.value, b.keyId.value, RequestKey(a).value, RequestKey(b).value);
    }
  }

  /** Exactly which client keys reach the row of a request without one: those spelled like its synthesized key. A client
   *  that sends such a key on another route gets that request's cached answer. */
  lemma ClientKeyCollides(plain: HttpRequest, other: HttpRequest)
    requires RequestKey(plain).Some? && plain.client == ""
    requires RequestKey(other).Some? && other.client != "" && other.keyId == plain.keyId
    requires ':' !in plain.keyId.value
    ensures CacheKey(other) == CacheKey(plain) <==> other.client == AutoKey(plain.verb, plain.digest, plain.path)
  {
    SameRowIff(other, plain);
  }

  /** Synthesized keys are equal only for the same verb, the same body digest and the same path. */
  lemma AutoKeyInjective(v1: string, d1: string, p1: string, v2: string, d2: string, p2: string)
    requires v1 in MUTATIONS && v2 in MUTATIONS && |d1| == |d2| == 32
    requires AutoKey(v1, d1, p1) == AutoKey(v2, d2, p2)
    ensures v1 == v2 && d1 == d2 && p1 == p2
  {
    var (k1, k2) := (AutoKey(v1, d1, p1), AutoKey(v2, d2, p2));
    assert k1[5] == v1[0] && k2[5] == v2[0] && k1[6] == v1[1] && k2[6] == v2[1];
    assert v1 == v2;
    var at := 5 + |v1| + 1;
    assert k1[at..at + 32] == d1 && k2[at..at + 32] == d2;
    assert k1[at + 33..] == p1 && k2[at + 33..] == p2;
  }

  // ---------- runs ----------

  /** What happens to the cache, one after another: requests under some key, and purges. A request looks
   *  the cache up before its handler runs and stores the answer after it. */
  datatype Step = Request(key: string, lookupAt: Time, outcome: Response, storeAt: Time) | Cleanup(at: Time)

  function Runs(cache: Cache, s: Step): bool {
    s.Request? && Get(cache, s.key, s.lookupAt).None?
  }

  function Perform(cache: Cache, s: Step): Cache {
    match s
    case Request(key, _, outcome, storeAt) =>
      if Runs(cache, s) && outcome.status < 300 then Put(cache, key, outcome, storeAt) else cache
    case Cleanup(at) => Purge(cache, at)
  }

  function After(steps: seq<Step>): Cache {
    if steps == [] then map[] else Perform(After(steps[..|steps| - 1]), steps[|steps| - 1])
  }

  function Starts(s: Step): Time { if s.Request? then s.lookupAt else s.at }

  function Ends(s: Step): Time { if s.Request? then s.storeAt else s.at }

  /** Requests are sequential: each ends before the next starts. */
  ghost predicate Sequential(steps: seq<Step>) {
    && (forall i :: 0 <= i < |steps| ==> Starts(steps[i]) <= Ends(steps[i]))
    && (forall i, j :: 0 <= i < j < |steps| ==> Ends(steps[i]) <= Starts(steps[j]))
  }

  /** Step `i` ran its handler for `key`, successfully. */
  predicate Succeeds(steps: seq<Step>, i: int, key: string) {
    && 0 <= i < |steps| && steps[i].Request? && steps[i].key == key
    && Runs(After(steps[..i]), steps[i]) && steps[i].outcome.status < 300
  }

  /** The latest success under `key` before step `n`. */
  function Latest(steps: seq<Step>, key: string, n: nat): (i: Option<nat>)
    requires n <= |steps|
    ensures i.Some? ==> i.value < n && Succeeds(steps, i.value, key)
    ensures i.Some? ==> forall j :: i.value < j < n ==> !Succeeds(steps, j, key)
    ensures i.None? ==> forall j :: 0 <= j < n ==> !Succeeds(steps, j, key)
  {
    if n == 0 then None
    else if Succeeds(steps, n - 1, key) then Some(n - 1)
    else Latest(steps, key, n - 1)
  }

  /** What a lookup must find, by the history alone. */
  function Expected(steps: seq<Step>, key: string, n: nat, now: Time): Option<Response>
    requires n <= |steps|
  {
    var i := Latest(steps, key, n);
    if i.Some? && now < steps[i.value].storeAt + 86_400 * SECOND then Some(steps[i.value].outcome) else None
  }

  /** A lookup finds the latest success of the last 24 hours, whatever ran or was purged in between. */
  lemma {:induction false} LookupIsLatest(steps: seq<Step>, key: string, n: nat, now: Time)
    requires Sequential(steps) && n <= |steps| && (n > 0 ==> Ends(steps[n - 1]) <= now)
    ensures Get(After(steps[..n]), key, now) == Expected(steps, key, n, now)
  {
    if n > 0 {
      assert steps[..n][..n - 1] == steps[..n - 1];
      var (before, s) := (After(steps[..n - 1]), steps[n - 1]);
      if n > 1 { assert Ends(steps[n - 2]) <= Starts(s); }
      LookupIsLatest(steps, key, n - 1, now);
      if s.Cleanup? { PurgeInvisible(before, s.at, key, now); }
    }
  }

  /** Two successful executions under one key are at least 24 hours apart. */
  lemma ExecutionsApart(steps: seq<Step>, key: string, i: int, j: int)
    requires Sequential(steps) && i < j && Succeeds(steps, i, key) && Succeeds(steps, j, key)
    ensures steps[i].storeAt + 86_400 * SECOND <= steps[j].lookupAt
  {
    assert Ends(steps[j - 1]) <= Starts(steps[j]);
    LookupIsLatest(steps, key, j, steps[j].lookupAt);
    var k := Latest(steps, key, j).value;
    assert Ends(steps[i]) <= Ends(steps[k]) by {
      if i < k { assert Ends(steps[i]) <= Starts(steps[k]) <= Ends(steps[k]); }
    }
  }

  /** Every request under the key within 24 hours of its latest success replays that success's exact
   *  status and body; every other request runs. */
  lemma ReplaysLatest(steps: seq<Step>, key: string, j: nat)
    requires Sequential(steps) && j < |steps| && steps[j].Request? && steps[j].key == key
    ensures
      var (s, i) := (steps[j], Latest(steps, key, j));
      if i.Some? && s.lookupAt < steps[i.value].storeAt + 86_400 * SECOND
      then !Runs(After(steps[..j]), s) && Get(After(steps[..j]), key, s.lookupAt) == Some(steps[i.value].outcome)
      else Runs(After(steps[..j]), s)
  {
    if j > 0 { assert Ends(steps[j - 1]) <= Starts(steps[j]); }
    LookupIsLatest(steps, key, j, steps[j].lookupAt);
  }
}
