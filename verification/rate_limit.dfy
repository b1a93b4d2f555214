/** Per-client sliding-window rate limiting: a `RateLimiter` keeps, for each
    client identifier, the timestamps (milliseconds) of the requests it
    admitted inside the trailing window. The clock is the explicit parameter
    `now`. */
module RateLimit {
  import opened Js

  /** The limit of the limiter named for geocoding; the aircraft-photo endpoint is
      the one endpoint that checks it. */
  const GeocodeMaxRequests := 30
  const DefaultMaxRequests := 10
  const WindowSecondsPerMinute := 60

  /** The window start for a check at `now`: timestamps strictly after it are recent. */
  function WindowStart(now: int, windowSeconds: int): int {
    now - windowSeconds * 1000
  }

  /** Each timestamp after `windowStart` occurs in `r` exactly as often as in
      `log`, and no other timestamp occurs in `r`. */
  ghost predicate KeepsRecentCounts(log: seq<int>, r: seq<int>, windowStart: int) {
    forall t :: multiset(r)[t] == if t > windowStart then multiset(log)[t] else 0
  }

  /** `log.filter(t => t > windowStart)`: the timestamps still inside the window, in order. */
  function Recent(log: seq<int>, windowStart: int): (r: seq<int>)
    ensures |r| <= |log|
    ensures forall i | 0 <= i < |r| :: r[i] > windowStart
    ensures forall t :: t in r <==> t in log && t > windowStart
    ensures KeepsRecentCounts(log, r, windowStart)
  {
    if log == [] then []
    else
      assert log == [log[0]] + log[1..];
      if log[0] > windowStart then [log[0]] + Recent(log[1..], windowStart)
      else Recent(log[1..], windowStart)
  }

  /** The log an identifier has: an identifier never seen has an empty one. */
  function LogOf(requests: map<string, seq<int>>, identifier: string): seq<int> {
    if identifier in requests then requests[identifier] else []
  }

  /** What one `isRateLimited` call decides and the log it stores. */
  datatype Decision = Decision(limited: bool, log: seq<int>)

  /** One `isRateLimited` step on one identifier's log: prune, then either reject
      (recording nothing) or admit and record `now`. */
  function Admit(log: seq<int>, now: int, maxRequests: int, windowSeconds: int): (d: Decision)
    ensures d.limited <==> |Recent(log, WindowStart(now, windowSeconds))| >= maxRequests
    ensures d.limited ==> d.log == Recent(log, WindowStart(now, windowSeconds))
    ensures !d.limited ==> d.log == Recent(log, WindowStart(now, windowSeconds)) + [now]
    ensures 0 <= maxRequests && |log| <= maxRequests ==> |d.log| <= maxRequests
  {
    var recent := Recent(log, WindowStart(now, windowSeconds));
    if |recent| >= maxRequests then Decision(true, recent) else Decision(false, recent + [now])
  }

  /** The decisions of successive calls for one identifier at the instants `times`,
      and the log left behind. */
  function Run(log: seq<int>, times: seq<int>, maxRequests: int, windowSeconds: int): (r: (seq<bool>, seq<int>))
    ensures |r.0| == |times|
    decreases |times|
  {
    if times == [] then ([], log)
    else
      var d := Admit(log, times[0], maxRequests, windowSeconds);
      var rest := Run(d.log, times[1..], maxRequests, windowSeconds);
      ([d.limited] + rest.0, rest.1)
  }

  /** The map after `cleanup()`: logs pruned to the window, identifiers with nothing
      recent deleted. */
  function Pruned(requests: map<string, seq<int>>, cutoff: int): (r: map<string, seq<int>>)
    ensures forall id | id in r :: id in requests && r[id] != [] && r[id] == Recent(requests[id], cutoff)
    ensures forall id | id in requests :: id in r <==> Recent(requests[id], cutoff) != []
  {
    map id | id in requests && Recent(requests[id], cutoff) != [] :: Recent(requests[id], cutoff)
  }

  /** `Math.max(0, n)`. */
  function Max0(n: int): int {
    if n < 0 then 0 else n
  }

  class RateLimiter {
    const maxRequests: int
    const windowSeconds: int
    var requests: map<string, seq<int>>

    /** The most timestamps one identifier can hold. */
    function Capacity(): nat {
      if maxRequests < 0 then 0 else maxRequests
    }

    /** The bounded-log invariant: no identifier's log outgrows the limit. */
    ghost predicate Valid()
      reads this
    {
      forall id | id in requests :: |requests[id]| <= Capacity()
    }

    constructor (maxRequests: int := DefaultMaxRequests, windowSeconds: int := WindowSecondsPerMinute)
      ensures this.maxRequests == maxRequests && this.windowSeconds == windowSeconds
      ensures requests == map[]
      ensures Valid()
    {
      this.maxRequests := maxRequests;
      this.windowSeconds := windowSeconds;
      requests := map[];
    }

    /** `isRateLimited(identifier)`: check and record in one step. */
    method IsRateLimited(identifier: string, now: int) returns (limited: bool)
      requires Valid()
      modifies this
      ensures Valid()
      ensures var d := Admit(LogOf(old(requests), identifier), now, maxRequests, windowSeconds);
              limited == d.limited && requests == old(requests)[identifier := d.log]
    {
      if identifier !in requests {
        requests := requests[identifier := []];
      }
      var requestLog := requests[identifier];
      var recentRequests := Recent(requestLog, WindowStart(now, windowSeconds));
      requests := requests[identifier := recentRequests];
      if |recentRequests| >= maxRequests {
        return true;
      }
      requests := requests[identifier := recentRequests + [now]];
      return false;
    }

    /** `getRemainingRequests(identifier)`: a read-only count of the requests left. */
    function GetRemainingRequests(identifier: string, now: int): (remaining: int)
      reads this
      ensures identifier !in requests ==> remaining == maxRequests
      ensures identifier in requests ==>
                remaining == Max0(maxRequests - |Recent(requests[identifier], WindowStart(now, windowSeconds))|)
      ensures 0 <= maxRequests ==> 0 <= remaining <= maxRequests
      ensures remaining > 0 <==> !Admit(LogOf(requests, identifier), now, maxRequests, windowSeconds).limited
    {
      if identifier !in requests then maxRequests
      else Max0(maxRequests - |Recent(requests[identifier], WindowStart(now, windowSeconds))|)
    }

    /** `cleanup()`: prunes every log, deleting identifiers left with nothing recent. */
    method Cleanup(now: int)
      requires Valid()
      modifies this
      ensures Valid()
      ensures requests == Pruned(old(requests), WindowStart(now, windowSeconds))
      ensures forall id | id in requests :: requests[id] != []
    {
      var cutoff := WindowStart(now, windowSeconds);
      ghost var original := requests;
      var pending := requests.Keys;
      while pending != {}
        invariant pending <= original.Keys
        invariant requests == map id | id in original && (id in pending || Recent(original[id], cutoff) != [])
                                     :: if id in pending then original[id] else Recent(original[id], cutoff)
        decreases pending
      {
        var identifier :| identifier in pending;
        var recentRequests := Recent(requests[identifier], cutoff);
        if recentRequests == [] {
          requests := requests - {identifier};
        } else {
          requests := requests[identifier := recentRequests];
        }
        pending := pending - {identifier};
      }
    }
  }

  /** The request details the client identifier is derived from. */
  datatype ClientRequest = ClientRequest(
    forwardedFor: Option<string>,       // header x-forwarded-for
    realIp: Option<string>,             // header x-real-ip
    connectionAddress: Option<string>,  // req.connection?.remoteAddress
    socketAddress: Option<string>)      // req.socket?.remoteAddress

  /** The characters `String.prototype.trim` removes: ECMAScript WhiteSpace
      (TAB, VT, FF, ZWNBSP and the Zs category) and LineTerminator. */
  predicate IsJsWhiteSpace(c: char) {
    || c == '\t' || c == '\U{B}' || c == '\U{C}' || c == '\U{FEFF}'
    || c == ' ' || c == '\U{A0}' || c == '\U{1680}' || ('\U{2000}' <= c <= '\U{200A}')
    || c == '\U{202F}' || c == '\U{205F}' || c == '\U{3000}'
    || c == '\n' || c == '\r' || c == '\U{2028}' || c == '\U{2029}'
  }

  /** `s.split(',')[0]`: the longest prefix without a comma. */
  function FirstField(s: string): (r: string)
    ensures r <= s
    ensures ',' !in r
    ensures |r| < |s| ==> s[|r|] == ','
  {
    if s == [] || s[0] == ',' then [] else [s[0]] + FirstField(s[1..])
  }

  /** Leading white space removed: `r` is the suffix of `s` after the white space. */
  function TrimStart(s: string): (r: string)
    ensures |r| <= |s| && r == s[|s| - |r|..]
    ensures forall i | 0 <= i < |s| - |r| :: IsJsWhiteSpace(s[i])
    ensures r != [] ==> !IsJsWhiteSpace(r[0])
  {
    if s != [] && IsJsWhiteSpace(s[0]) then TrimStart(s[1..]) else s
  }

  /** Trailing white space removed: `r` is the prefix of `s` before the white space. */
  function TrimEnd(s: string): (r: string)
    ensures r <= s
    ensures forall i | |r| <= i < |s| :: IsJsWhiteSpace(s[i])
    ensures r != [] ==> !IsJsWhiteSpace(r[|r| - 1])
  {
    if s != [] && IsJsWhiteSpace(s[|s| - 1]) then TrimEnd(s[..|s| - 1]) else s
  }

  /** `r` is the slice of `s` at `k` with only white space before and after it. */
  predicate StrippedAt(s: string, r: string, k: int) {
    && 0 <= k <= |s| - |r|
    && r == s[k..k + |r|]
    && (forall i | 0 <= i < k :: IsJsWhiteSpace(s[i]))
    && (forall i | k + |r| <= i < |s| :: IsJsWhiteSpace(s[i]))
  }

  /** `s.trim()`: `s` with exactly its leading and trailing white space removed. */
  function Trim(s: string): (r: string)
    ensures exists k :: StrippedAt(s, r, k)
    ensures r != [] ==> !IsJsWhiteSpace(r[0]) && !IsJsWhiteSpace(r[|r| - 1])
  {
    TrimStrips(s, TrimStart(s), TrimEnd(TrimStart(s)));
    TrimEnd(TrimStart(s))
  }

  /** Leading white space then trailing white space removed leaves a slice of `s`
      with only white space around it. */
  lemma TrimStrips(s: string, start: string, r: string)
    requires |start| <= |s| && start == s[|s| - |start|..]
    requires forall i | 0 <= i < |s| - |start| :: IsJsWhiteSpace(s[i])
    requires r <= start
    requires forall i | |r| <= i < |start| :: IsJsWhiteSpace(start[i])
    ensures StrippedAt(s, r, |s| - |start|)
  {
    var k := |s| - |start|;
    PrefixOfSuffix(s, start, r, k);
    WhiteSpaceTail(s, start, k, |r|);
  }

  /** White space at the end of the suffix `start` of `s` at `k` is white space at the end of `s`. */
  lemma WhiteSpaceTail(s: string, start: string, k: int, n: int)
    requires 0 <= k <= |s| && start == s[k..] && 0 <= n <= |start|
    requires forall j | n <= j < |start| :: IsJsWhiteSpace(start[j])
    ensures forall i | k + n <= i < |s| :: IsJsWhiteSpace(s[i])
  {
    forall i | k + n <= i < |s|
      ensures IsJsWhiteSpace(s[i])
    {
      assert s[i] == start[i - k];
    }
  }

  /** A prefix `r` of the suffix `start` of `s` at `k` is the slice of `s` at `k`. */
  lemma PrefixOfSuffix(s: string, start: string, r: string, k: int)
    requires 0 <= k <= |s| && start == s[k..] && r <= start
    ensures r == s[k..k + |r|]
    ensures forall i | k <= i < |s| :: s[i] == start[i - k]
  {
  }

  /** `req.headers['x-forwarded-for']?.split(',')[0]?.trim()`. */
  function ForwardedClient(client: ClientRequest): Option<string> {
    match client.forwardedFor
    case None => None
    case Some(header) => Some(Trim(FirstField(header)))
  }

  /** `getClientIP(req)`: the first truthy candidate in the fallback chain. */
  function GetClientIP(client: ClientRequest): (ip: string)
    ensures ip != ""
    ensures Truthy(ForwardedClient(client)) ==>
              ip == ForwardedClient(client).value && ',' !in ip
              && !IsJsWhiteSpace(ip[0]) && !IsJsWhiteSpace(ip[|ip| - 1])
    ensures !Truthy(ForwardedClient(client)) && Truthy(client.realIp) ==> ip == client.realIp.value
    ensures !Truthy(ForwardedClient(client)) && !Truthy(client.realIp) && Truthy(client.connectionAddress) ==>
              ip == client.connectionAddress.value
    ensures (!Truthy(ForwardedClient(client)) && !Truthy(client.realIp) && !Truthy(client.connectionAddress)
             && Truthy(client.socketAddress)) ==> ip == client.socketAddress.value
    ensures (!Truthy(ForwardedClient(client)) && !Truthy(client.realIp) && !Truthy(client.connectionAddress)
             && !Truthy(client.socketAddress)) ==> ip == "unknown"
  {
    var forwarded := ForwardedClient(client);
    assert Truthy(forwarded) ==> ',' !in forwarded.value by {
      if Truthy(forwarded) {
        var first := FirstField(client.forwardedFor.value);
        TrimKeepsOut(first, ',');
      }
    }
    OrElse(Or(Or(Or(forwarded, client.realIp), client.connectionAddress), client.socketAddress), "unknown")
  }

  /** Trimming only removes characters. */
  lemma TrimKeepsOut(s: string, c: char)
    requires c !in s
    ensures c !in Trim(s)
  {
    TrimStartKeepsOut(s, c);
    TrimEndKeepsOut(TrimStart(s), c);
  }

  lemma {:induction false} TrimStartKeepsOut(s: string, c: char)
    requires c !in s
    ensures c !in TrimStart(s)
  {
    if s != [] && IsJsWhiteSpace(s[0]) {
      assert s == [s[0]] + s[1..];
      TrimStartKeepsOut(s[1..], c);
    }
  }

  lemma {:induction false} TrimEndKeepsOut(s: string, c: char)
    requires c !in s
    ensures c !in TrimEnd(s)
  {
    if s != [] && IsJsWhiteSpace(s[|s| - 1]) {
      assert s == s[..|s| - 1] + [s[|s| - 1]];
      TrimEndKeepsOut(s[..|s| - 1], c);
    }
  }

  /** The client's reply from `checkRateLimit`: a 429 with headers and a JSON body
      whose message and `retryAfter` give the window length, or the headers set
      on an admitted request. */
  datatype LimitReply =
    | TooManyRequests(limit: int, remaining: int, retryAfter: int)
    | Allowed(limit: int, remaining: int)

  /** The status a rejection answers with. */
  const TooManyRequestsStatus := 429

  /** The reply `checkRateLimit` gives for a client whose log is `log`: the
      limit, and either a rejection with remaining 0 and `Retry-After` = window,
      or an admission reporting `getRemainingRequests - 1` after the call is
      recorded. */
  function Report(log: seq<int>, now: int, maxRequests: int, windowSeconds: int): (reply: LimitReply)
    ensures reply.limit == maxRequests
    ensures reply.TooManyRequests? <==> Admit(log, now, maxRequests, windowSeconds).limited
    ensures reply.TooManyRequests? ==> reply.retryAfter == windowSeconds && reply.remaining == 0
    ensures reply.Allowed? ==>
              reply.remaining ==
                Max0(maxRequests - |Recent(Admit(log, now, maxRequests, windowSeconds).log, WindowStart(now, windowSeconds))|) - 1
    ensures reply.Allowed? && windowSeconds > 0 ==>
              reply.remaining == maxRequests - |Recent(log, WindowStart(now, windowSeconds))| - 2
              && reply.remaining >= -1
  {
    ReportedRemaining(log, now, maxRequests, windowSeconds);
    var d := Admit(log, now, maxRequests, windowSeconds);
    var remaining := Max0(maxRequests - |Recent(d.log, WindowStart(now, windowSeconds))|);
    if d.limited then TooManyRequests(maxRequests, remaining, windowSeconds)
    else Allowed(maxRequests, remaining - 1)
  }

  /** `checkRateLimit(rateLimiter, req, res)`: decide for the client's identifier and
      report the decision. */
  method CheckRateLimit(limiter: RateLimiter, client: ClientRequest, now: int) returns (allowed: bool, reply: LimitReply)
    requires limiter.Valid()
    modifies limiter
    ensures limiter.Valid()
    ensures var ip := GetClientIP(client);
            var log := LogOf(old(limiter.requests), ip);
            && limiter.requests == old(limiter.requests)[ip := Admit(log, now, limiter.maxRequests, limiter.windowSeconds).log]
            && reply == Report(log, now, limiter.maxRequests, limiter.windowSeconds)
            && allowed == reply.Allowed?
  {
    var clientIP := GetClientIP(client);
    allowed, reply := CheckIdentifier(limiter, clientIP, now);
  }

  /** The body of `checkRateLimit` once the client's identifier is known: the
      check, then the reply built from `getRemainingRequests`. */
  method CheckIdentifier(limiter: RateLimiter, identifier: string, now: int) returns (allowed: bool, reply: LimitReply)
    requires limiter.Valid()
    modifies limiter
    ensures limiter.Valid()
    ensures var log := LogOf(old(limiter.requests), identifier);
            && limiter.requests == old(limiter.requests)[identifier := Admit(log, now, limiter.maxRequests, limiter.windowSeconds).log]
            && reply == Report(log, now, limiter.maxRequests, limiter.windowSeconds)
            && allowed == reply.Allowed?
  {
    ghost var log := LogOf(limiter.requests, identifier);
    var limited := limiter.IsRateLimited(identifier, now);
    ghost var d := Admit(log, now, limiter.maxRequests, limiter.windowSeconds);
    assert identifier in limiter.requests && limiter.requests[identifier] == d.log;
    var remaining := limiter.GetRemainingRequests(identifier, now);
    if limited {
      return false, TooManyRequests(limiter.maxRequests, remaining, limiter.windowSeconds);
    }
    return true, Allowed(limiter.maxRequests, remaining - 1);
  }

  /** What `getRemainingRequests` reports right after a check: 0 after a
      rejection; after an admission with a positive window, the room before the
      call minus one. */
  lemma ReportedRemaining(log: seq<int>, now: int, maxRequests: int, windowSeconds: int)
    ensures var d := Admit(log, now, maxRequests, windowSeconds);
            var windowStart := WindowStart(now, windowSeconds);
            var remaining := Max0(maxRequests - |Recent(d.log, windowStart)|);
            && (d.limited ==> remaining == 0)
            && (!d.limited && windowSeconds > 0 ==>
                  remaining - 1 == maxRequests - |Recent(log, windowStart)| - 2 && remaining - 1 >= -1)
  {
    if Admit(log, now, maxRequests, windowSeconds).limited {
      RecentIdempotent(log, WindowStart(now, windowSeconds));
    } else if windowSeconds > 0 {
      AdmittedHeadroom(log, now, maxRequests, windowSeconds);
    }
  }

  /** Filtering twice with the same window start filters once. */
  lemma {:induction false} RecentIdempotent(log: seq<int>, windowStart: int)
    ensures Recent(Recent(log, windowStart), windowStart) == Recent(log, windowStart)
  {
    if log != [] {
      RecentIdempotent(log[1..], windowStart);
    }
  }

  /** Filtering with an earlier window start and then a later one filters once with the later. */
  lemma {:induction false} RecentMonotone(log: seq<int>, earlier: int, later: int)
    requires earlier <= later
    ensures Recent(Recent(log, earlier), later) == Recent(log, later)
  {
    if log != [] {
      RecentMonotone(log[1..], earlier, later);
    }
  }

  /** Appending a timestamp commutes with filtering. */
  lemma {:induction false} RecentAppend(log: seq<int>, t: int, windowStart: int)
    ensures Recent(log + [t], windowStart) == Recent(log, windowStart) + (if t > windowStart then [t] else [])
  {
    if log == [] {
      assert log + [t] == [t];
    } else {
      assert (log + [t])[1..] == log[1..] + [t];
      RecentAppend(log[1..], t, windowStart);
    }
  }

  /** A log whose timestamps are all recent is kept whole. */
  lemma {:induction false} RecentKeepsAll(log: seq<int>, windowStart: int)
    requires forall t | t in log :: t > windowStart
    ensures Recent(log, windowStart) == log
  {
    if log != [] {
      assert log[0] in log;
      assert forall t | t in log[1..] :: t in log;
      RecentKeepsAll(log[1..], windowStart);
    }
  }

  /** After an admission, with a positive window, the remaining count the limiter
      then reports is the room left after this request, so the header
      (`remaining - 1`) is two below the room before it and never below -1. */
  lemma AdmittedHeadroom(log: seq<int>, now: int, maxRequests: int, windowSeconds: int)
    requires windowSeconds > 0
    requires !Admit(log, now, maxRequests, windowSeconds).limited
    ensures var windowStart := WindowStart(now, windowSeconds);
            var stored := Admit(log, now, maxRequests, windowSeconds).log;
            && Max0(maxRequests - |Recent(stored, windowStart)|) == maxRequests - |Recent(log, windowStart)| - 1
            && Max0(maxRequests - |Recent(stored, windowStart)|) - 1 >= -1
  {
    var windowStart := WindowStart(now, windowSeconds);
    var recent := Recent(log, windowStart);
    RecentAppend(recent, now, windowStart);
    RecentIdempotent(log, windowStart);
  }

  /** On the last request the window admits, `checkRateLimit` reports -1 remaining. */
  lemma LastAdmittedReportsMinusOne(log: seq<int>, now: int, maxRequests: int, windowSeconds: int)
    requires windowSeconds > 0
    requires |Recent(log, WindowStart(now, windowSeconds))| == maxRequests - 1
    ensures !Admit(log, now, maxRequests, windowSeconds).limited
    ensures Max0(maxRequests - |Recent(Admit(log, now, maxRequests, windowSeconds).log, WindowStart(now, windowSeconds))|) - 1 == -1
  {
    AdmittedHeadroom(log, now, maxRequests, windowSeconds);
  }

  /** The window semantics: when every call instant lies in one window that also
      holds every logged timestamp (all are after `boundary`, and each call's
      window start is at or before it), call `i` is limited exactly when the log
      held, plus the `i` calls before it, reach the limit. */
  lemma {:induction false} WithinOneWindow(log: seq<int>, times: seq<int>, maxRequests: int, windowSeconds: int, boundary: int)
    requires forall t | t in log :: t > boundary
    requires forall i | 0 <= i < |times| :: boundary < times[i] && WindowStart(times[i], windowSeconds) <= boundary
    ensures forall i | 0 <= i < |times| :: Run(log, times, maxRequests, windowSeconds).0[i] == (|log| + i >= maxRequests)
    decreases |times|
  {
    if times != [] {
      var d := Admit(log, times[0], maxRequests, windowSeconds);
      RecentKeepsAll(log, WindowStart(times[0], windowSeconds));
      assert forall t | t in d.log :: t > boundary;
      WithinOneWindow(d.log, times[1..], maxRequests, windowSeconds, boundary);
      var run := Run(log, times, maxRequests, windowSeconds);
      var rest := Run(d.log, times[1..], maxRequests, windowSeconds);
      forall i | 0 <= i < |times|
        ensures run.0[i] == (|log| + i >= maxRequests)
      {
        if i > 0 {
          assert run.0[i] == rest.0[i - 1];
        }
      }
    }
  }

  /** With a limit of N, the first N calls from a new identifier inside one
      window are admitted and the (N+1)-th is limited. */
  lemma NPlusOneLimited(times: seq<int>, maxRequests: nat, windowSeconds: int, boundary: int)
    requires |times| == maxRequests + 1
    requires forall i | 0 <= i < |times| :: boundary < times[i] && WindowStart(times[i], windowSeconds) <= boundary
    ensures forall i | 0 <= i < maxRequests :: !Run([], times, maxRequests, windowSeconds).0[i]
    ensures Run([], times, maxRequests, windowSeconds).0[maxRequests]
  {
    WithinOneWindow([], times, maxRequests, windowSeconds, boundary);
  }

  /** Only admitted calls are recorded: every timestamp the run leaves behind was
      already logged or is the instant of a call that was admitted. */
  lemma {:induction false} RunRecordsOnlyAdmitted(log: seq<int>, times: seq<int>, maxRequests: int, windowSeconds: int)
    ensures var run := Run(log, times, maxRequests, windowSeconds);
            forall t | t in run.1 :: t in log || exists i | 0 <= i < |times| :: times[i] == t && !run.0[i]
    decreases |times|
  {
    if times != [] {
      var d := Admit(log, times[0], maxRequests, windowSeconds);
      RunRecordsOnlyAdmitted(d.log, times[1..], maxRequests, windowSeconds);
      var run := Run(log, times, maxRequests, windowSeconds);
      var rest := Run(d.log, times[1..], maxRequests, windowSeconds);
      forall t | t in run.1
        ensures t in log || exists i | 0 <= i < |times| :: times[i] == t && !run.0[i]
      {
        if t in d.log {
          if t !in log {
            assert t == times[0] && !run.0[0];
          }
        } else {
          var j :| 0 <= j < |times[1..]| && times[1..][j] == t && !rest.0[j];
          assert times[j + 1] == t && !run.0[j + 1];
        }
      }
    }
  }

  /** Once every timestamp in the log has left the window, the next call is admitted. */
  lemma AdmittedAfterWindow(log: seq<int>, now: int, maxRequests: int, windowSeconds: int)
    requires maxRequests > 0
    requires forall t | t in log :: t <= WindowStart(now, windowSeconds)
    ensures !Admit(log, now, maxRequests, windowSeconds).limited
    ensures Admit(log, now, maxRequests, windowSeconds).log == [now]
  {
    RecentDropsStale(log, WindowStart(now, windowSeconds));
  }

  /** A log whose timestamps have all left the window is emptied. */
  lemma {:induction false} RecentDropsStale(log: seq<int>, windowStart: int)
    requires forall t | t in log :: t <= windowStart
    ensures Recent(log, windowStart) == []
  {
    if log != [] {
      assert log[0] in log;
      assert forall t | t in log[1..] :: t in log;
      RecentDropsStale(log[1..], windowStart);
    }
  }

  /** A burst that was limited does not hold the client back: once the admitted
      instants have left the window, the next call is admitted, because rejected
      calls were never recorded. */
  lemma WindowRecovers(times: seq<int>, maxRequests: int, windowSeconds: int, later: int)
    requires maxRequests > 0
    requires forall i | 0 <= i < |times| :: times[i] <= WindowStart(later, windowSeconds)
    ensures !Admit(Run([], times, maxRequests, windowSeconds).1, later, maxRequests, windowSeconds).limited
  {
    var run := Run([], times, maxRequests, windowSeconds);
    RunRecordsOnlyAdmitted([], times, maxRequests, windowSeconds);
    AdmittedAfterWindow(run.1, later, maxRequests, windowSeconds);
  }

  /** `cleanup()` is unobservable: for any later check, every identifier is
      decided as it would have been without the sweep. */
  lemma CleanupUnobservable(requests: map<string, seq<int>>, now: int, later: int, identifier: string,
                            maxRequests: int, windowSeconds: int)
    requires now <= later
    ensures var cleaned := Pruned(requests, WindowStart(now, windowSeconds));
            Admit(LogOf(cleaned, identifier), later, maxRequests, windowSeconds)
            == Admit(LogOf(requests, identifier), later, maxRequests, windowSeconds)
  {
    var cutoff := WindowStart(now, windowSeconds);
    var windowStart := WindowStart(later, windowSeconds);
    if identifier in requests {
      RecentMonotone(requests[identifier], cutoff, windowStart);
    }
  }
}
