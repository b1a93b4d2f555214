# what-dat-plane server core, modelled in Dafny

This project models the server-side core of a "what plane is that" web
application: the serverless handlers that find the aircraft nearest to a point
and look up its photo, and the two pieces of process-wide state that shield
the upstream providers, an ephemeral TTL cache and a per-client
sliding-window rate limiter.

- `js.dfy` (module `Js`) holds the JavaScript conventions the handlers rely on.
  Values that may be `null` or `undefined` are `Option`. Truthiness is modelled:
  an empty string and the number 0 are falsy. The `||` fallback chains and
  ASCII upper/lower casing are modelled too.
- `cache.dfy` (module `Cache`) models `SimpleCache` as a class whose field
  `entries` is the key -> `{value, expiresAt}` map. `Get` and `Has` evict an
  expired entry lazily. `Cleanup` sweeps the map in a loop. Every method's
  postcondition gives the new map as a function of the old one (`Lookup`,
  `AfterRead`, `Swept`). The lemmas beside the class prove the expiry
  semantics from those functions.
- `rate_limit.dfy` (module `RateLimit`) models `RateLimiter` as a class whose
  field `requests` maps each identifier to its log of timestamps. It also
  holds `getClientIP` and `checkRateLimit`.
  - `Admit` specifies one `isRateLimited` step: prune the log to the window,
    then either reject and record nothing, or admit and record the call.
  - `Run` folds `Admit` over a sequence of calls.
  - The bounded-log invariant `Valid()` is kept by every method.
  - Lemmas prove the window semantics: the (N+1)-th call in one window is
    limited, the client is admitted again once the window has passed, and a
    cleanup sweep cannot be observed.
- `nearest_flight.dfy` (module `NearestFlight`) models the nearest-flight handler.
  - The `forEach` arg-min scan is a method with a loop. It is proved to return
    the first-in-order entry of minimal distance among the positioned entries.
  - `ToCanonical` builds the canonical record with the airline-name table.
  - `Handle` sequences validation, the upstream outcome and the scan.
  - The Haversine distance and `parseFloat` are function-valued parameters,
    so nothing is assumed about them.
- `aircraft-photo.js` is modelled by `aircraft_photo.dfy` (module `AircraftPhoto`).
  - `Handle` runs the rate-limit gate, validation, cache key and cache read.
    On a miss it calls the pure `ResolveAndFetch`: registration resolution,
    photo lookup, result shaping and TTL choice. Then it stores the result in
    the cache.
  - The two upstream requests are given as outcomes (`Ok` body, `NotOk`,
    `Threw`). The handler returns the list of requests it made, so "no
    upstream call" can be stated.

The clock (`Date.now()`) is an explicit `now` parameter in milliseconds
everywhere.

On three points that are easy to assume otherwise, the model follows what the code does:
- the nearest-flight scan does not exclude aircraft on the ground (`on_ground`
  is only reported; `GroundedNotExcluded`);
- the photo lookup has no type-generic fallback;
- an entry at latitude 0 or longitude 0 is skipped like one without a
  position, because the guard tests truthiness (`ZeroCoordinateNeverSelected`).

## Model

| member | source | states |
|---|---|---|
| Js.AsciiUpper | api/nearest-flight.js:106 | upper-casing keeps the length, turns each ASCII lower-case letter into its own upper-case letter (code point minus 32), leaves no lower-case letter and keeps every other character |
| Js.AsciiLower | api/aircraft-photo.js:48 | lower-casing keeps the length, turns each ASCII upper-case letter into its own lower-case letter (code point plus 32), leaves no upper-case letter and keeps every other character |
| Cache.SimpleCache.constructor | api/utils/cache.js:5-7 | a new cache is empty |
| Cache.SimpleCache.Set | api/utils/cache.js:9-12 | overwrites the entry for `key` with expiry `now + ttl*1000` (default TTL 60 s); the value reads back at every instant up to and including the expiry; every other key keeps its value and expiry |
| Cache.SimpleCache.Get | api/utils/cache.js:14-28 | returns the value exactly when the key is present and `now` is not after its expiry; an absent key returns null and changes nothing; an expired key returns null and is deleted; a hit changes nothing |
| Cache.SimpleCache.Has | api/utils/cache.js:30-44 | true exactly when `Get` at the same instant would return a value, with the same eviction |
| Cache.SimpleCache.Clear | api/utils/cache.js:46-48 | the map is empty and no key reads a value |
| Cache.SimpleCache.Cleanup | api/utils/cache.js:51-58 | the loop deletes exactly the entries with `now > expiresAt` and leaves every other entry untouched |
| Cache.LiveUntilExpiry | api/utils/cache.js:9-27 | after a store at `now` with a TTL, a read at any instant up to `now + ttl*1000` (boundary included, strict `>`) returns the value and evicts nothing; a read after it returns null and evicts the key |
| Cache.SetIsolatesKey | api/utils/cache.js:9-12 | a store under one key changes what no other key reads |
| Cache.ReadEvictionUnobservable | api/utils/cache.js:22-25 | the eviction a read performs changes no key's reading at that instant or later |
| Cache.SweepUnobservable | api/utils/cache.js:51-58 | a sweep changes no key's reading at that instant or later, and a second sweep at the same instant changes nothing |
| Cache.SweepsCompose | api/utils/cache.js:51-58 | a sweep followed by a later one equals the later one alone |
| RateLimit.Recent | api/utils/rateLimit.js:22-23 | the filtered log has no more entries than the log, every entry is after the window start, and each timestamp after the window start occurs in it exactly as many times as in the log, every other timestamp not at all, so its length is the count the limit is compared with |
| RateLimit.Admit | api/utils/rateLimit.js:11-34 | one check: limited exactly when the pruned log holds at least `maxRequests`; a rejection stores only the pruned log; an admission stores the pruned log plus `now`; a log within the limit stays within it |
| RateLimit.Pruned | api/utils/rateLimit.js:51-64 | after cleanup no stored log is empty; each kept log is its pruned original; an identifier is kept exactly when it has a recent timestamp |
| RateLimit.RateLimiter.constructor | api/utils/rateLimit.js:5-9 | a limiter with the given limit and window (defaults 10 and 60) and no logs, which satisfies the bounded-log invariant |
| RateLimit.RateLimiter.IsRateLimited | api/utils/rateLimit.js:11-34 | creates an empty log for a new identifier, replaces the identifier's log with the `Admit` result and returns its decision; no other identifier changes; the bounded-log invariant is kept |
| RateLimit.RateLimiter.GetRemainingRequests | api/utils/rateLimit.js:36-48 | `maxRequests` for an unknown identifier, otherwise `max(0, maxRequests - #recent)`; within `[0, maxRequests]`; positive exactly when the next check at the same instant would admit |
| RateLimit.RateLimiter.Cleanup | api/utils/rateLimit.js:51-64 | the loop deletes identifiers with no recent timestamps and prunes the rest; no remaining log is empty; the invariant is kept |
| RateLimit.FirstField | api/utils/rateLimit.js:84 | `split(',')[0]`: the longest comma-free prefix |
| RateLimit.TrimStart | api/utils/rateLimit.js:84 | removes exactly the leading ECMAScript white space |
| RateLimit.TrimEnd | api/utils/rateLimit.js:84 | removes exactly the trailing ECMAScript white space |
| RateLimit.Trim | api/utils/rateLimit.js:84 | the result is a slice of `s` with only white space before and after it in `s`, and it neither starts nor ends with white space: exactly the leading and trailing white space is removed |
| RateLimit.TrimKeepsOut | api/utils/rateLimit.js:84 | trimming introduces no character that was not there |
| RateLimit.GetClientIP | api/utils/rateLimit.js:81-90 | never empty; the trimmed first `x-forwarded-for` field when non-empty (then comma-free and unpadded), else `x-real-ip`, else the connection address, else the socket address, else `'unknown'` |
| RateLimit.Report | api/utils/rateLimit.js:97-113 | the reply for a client's log: the limit always; a rejection exactly when `Admit` limits, with remaining 0 and `Retry-After` = window; an admission reports `max(0, max - #recent after recording) - 1` for any window, which with a positive window is `max - #recent before the call - 2`, at least -1 |
| RateLimit.ReportedRemaining | api/utils/rateLimit.js:97-113 | `getRemainingRequests` right after a check is 0 after a rejection and, with a positive window, the room before an admitted call minus one |
| RateLimit.CheckRateLimit | api/utils/rateLimit.js:93-116 | records as `IsRateLimited` does for the client's IP (`GetClientIP`), answers `Report` of the client's previous log, and allows exactly when that reply is not a rejection |
| RateLimit.CheckIdentifier | api/utils/rateLimit.js:95-116 | for a given identifier, seen before or not: replaces its log with the `Admit` result, answers `Report` of its previous log built from `getRemainingRequests`, and keeps the bounded-log invariant |
| RateLimit.RecentIdempotent | api/utils/rateLimit.js:23 | filtering an already filtered log again changes nothing |
| RateLimit.RecentMonotone | api/utils/rateLimit.js:56 | filtering with an earlier cutoff and then a later one equals filtering with the later one |
| RateLimit.RecentAppend | api/utils/rateLimit.js:32 | appending a timestamp commutes with filtering |
| RateLimit.RecentKeepsAll | api/utils/rateLimit.js:23 | a log whose timestamps are all inside the window is kept whole |
| RateLimit.RecentDropsStale | api/utils/rateLimit.js:23 | a log whose timestamps have all left the window is emptied |
| RateLimit.AdmittedHeadroom | api/utils/rateLimit.js:108-113 | after an admission with a positive window, the remaining count is the room before the call minus one, so the reported header is at least -1 |
| RateLimit.LastAdmittedReportsMinusOne | api/utils/rateLimit.js:108-113 | on the last request a window admits, the reported remaining is -1 |
| RateLimit.WithinOneWindow | api/utils/rateLimit.js:23-33 | for calls inside one window, call `i` is limited exactly when the logged timestamps plus the `i` earlier calls reach the limit |
| RateLimit.NPlusOneLimited | api/utils/rateLimit.js:23-33 | with limit N, a new client's first N calls in one window are admitted and the (N+1)-th is limited |
| RateLimit.RunRecordsOnlyAdmitted | api/utils/rateLimit.js:27-33 | every timestamp left in a log was already there or is the instant of an admitted call |
| RateLimit.AdmittedAfterWindow | api/utils/rateLimit.js:23-33 | once every logged timestamp has left the window, the next call is admitted and the log is just that call |
| RateLimit.WindowRecovers | api/utils/rateLimit.js:23-33 | after any burst, limited or not, a call made once all the burst's instants have left the window is admitted |
| RateLimit.CleanupUnobservable | api/utils/rateLimit.js:51-64 | for any later check, every identifier is decided exactly as without the cleanup sweep |
| NearestFlight.Round2 | api/nearest-flight.js:121 | the result is a whole number of hundredths, greater than the value minus 0.005 and at most the value plus 0.005 (halves round up) |
| NearestFlight.AirlineName | api/nearest-flight.js:106 | a code whose upper-casing is in the table names that airline; any other code passes through unchanged |
| NearestFlight.AirlineCode | api/nearest-flight.js:105 | the code is `airline_icao` when truthy, else `airline_iata` when truthy, else `'Unknown'` |
| NearestFlight.ToCanonical | api/nearest-flight.js:105-128 | keeps the position; every string field is non-empty; each `||` chain step by step: `icao24` is `hex`, else `reg_number`, else `'unknown'`; `callsign` is `flight_icao`, else `flight_iata`, else `'Unknown'`; `origin_country` is `flag`, else `'Unknown'`; departure is `dep_iata`, else `dep_icao`, else `'Unknown'`, and arrival likewise; aircraft is `aircraft_icao`, else `'Unknown'`; the airline is the table name of `AirlineCode`; registration is present exactly when `reg_number` is truthy, and is then `reg_number`; both altitudes are `alt`, velocity `speed`, track `dir`, vertical rate `v_speed`, each 0 when missing; `on_ground` is false exactly when status is `'en-route'`; distance is `Round2` of the computed one, so within 0.005 of it; `last_contact` is `now` in whole seconds |
| NearestFlight.FindNearest | api/nearest-flight.js:89-131 | no flight exactly when no entry has truthy `lat` and `lng`; otherwise the record of the positioned entry whose distance is at most every positioned entry's and strictly less than every earlier one's; whenever such an entry exists it is the one selected |
| NearestFlight.FirstNearestUnique | api/nearest-flight.js:101 | the strict `<` makes the selected entry unique: two first-nearest entries are the same |
| NearestFlight.Handle | api/nearest-flight.js:48-145 | missing `lat`/`lon` gives 400 and missing API key gives 503, both without the upstream call; a non-ok or throwing upstream gives 500; a missing or empty `response` gives 404 "No flights found"; no positioned entry gives 404 "No flights found in the air"; a list with a positioned entry always gives 200 with the first-nearest entry's record |
| NearestFlight.AirlineLookupExamples | api/nearest-flight.js:105-106 | `dal` names Delta Air Lines; `XYZ` and `Unknown` pass through |
| NearestFlight.AirlineLookupIgnoresCase | api/nearest-flight.js:106 | codes that upper-case alike name the same known airline |
| NearestFlight.GroundedNotExcluded | api/nearest-flight.js:92-131 | two lists that differ only in `status` fields have the same first-nearest entry, so the scan never skips a grounded aircraft; a selected entry that is not en-route is reported on the ground |
| NearestFlight.ZeroCoordinateNeverSelected | api/nearest-flight.js:93 | an entry with a missing or zero `lat` or `lng` is never selected |
| AircraftPhoto.CacheKey | api/aircraft-photo.js:30 | the key is `photo:` followed by `icao24` when truthy, else by `registration` |
| AircraftPhoto.CacheKeyInjective | api/aircraft-photo.js:30 | equal keys mean equal identifiers (`icao24`, or `registration` when `icao24` is falsy) |
| AircraftPhoto.CacheKeyIgnoresRegistration | api/aircraft-photo.js:30 | with a truthy `icao24` the key is `photo:` plus `icao24` whatever the registration, so requests that differ only in registration share one cached result |
| AircraftPhoto.ResultFromPage | api/aircraft-photo.js:97-108 | with a non-empty `photos`, each of photo URL, thumbnail, photographer and link is the first photo's field when truthy and null otherwise; with no photos all four are null |
| AircraftPhoto.ResolveAndFetch | api/aircraft-photo.js:41-128 | metadata is looked up, by the lower-cased `icao24`, exactly when `registration` is falsy and `icao24` truthy; a truthy `registration` is used for the photo lookup as given, with no other request; no registration gives 404 with nothing cached; from the inputs: a throwing metadata lookup gives the 200 "unavailable" reply for `'unknown'`; a non-ok metadata response, or a body without a truthy registration, gives 404 with nothing cached; a body registration is the one the photo lookup uses; once the registration is known, a non-ok photo response gives the null-photo result (no `link`) cached 3600 s, a photo body gives `ResultFromPage` of it cached 604800 s, and a throwing photo lookup gives 200 with the query registration or `'unknown'` and nothing cached |
| AircraftPhoto.Handle | api/aircraft-photo.js:19-37 | the rate-limit gate runs first; a rejection is the 429 reply with the limiter's limit, remaining 0 and `Retry-After` = window, and touches neither cache nor upstream; missing identifiers give 400 with no cache access and no upstream call; otherwise the request is `Served` |
| AircraftPhoto.Serve | api/aircraft-photo.js:29-128 | a live cached result under the `CacheKey` of the identifiers is returned with no upstream call and no cache change; a miss follows `ResolveAndFetch` and leaves the cache as the read's eviction plus the store of its result under the key with its TTL |
| AircraftPhoto.PhotoGateBurst | api/utils/rateLimit.js:70 | with the photo endpoint's limiter (30 per 60 s) a client's first 30 requests in one minute pass and the 31st is rejected |
| AircraftPhoto.StoredResultIsServed | api/aircraft-photo.js:30-37 | a result stored after a miss is served for the same identifiers at any instant up to its expiry |
| AircraftPhoto.PhotoFailureDegrades | api/aircraft-photo.js:80-93 | a failing photo lookup for a known registration is a 200 with null photo fields, cached for an hour |

## Left out

- The Haversine distance `getDistance`/`toRad` and `parseFloat` of the query
  values are floating point. They are uninterpreted function parameters of
  `NearestFlight.Handle`. Nothing is proved about them: no symmetry, no
  triangle inequality, no NaN.
- A query that parses to NaN makes every distance NaN and the strict `<`
  never fires. This is not modelled, because distances are real numbers here.
- `NearestFlight.Round2` models `Math.round(x * 100) / 100` on exact reals.
  The float rounding of the multiplication and the division is not modelled.
- JSON field types are taken as declared: a coordinate is a number or
  missing, a code is a string or missing. Entries of other shapes are not
  modelled.
- `Js.AsciiUpper` and `Js.AsciiLower` map only the ASCII letters.
  JavaScript's full Unicode case mapping is not modelled. Under it a few
  non-ASCII spellings, such as a ligature or a dotless i, upper-case to a
  table key.
- `Date.now()` is one `now` parameter per handler call. In the source the
  cache read, the rate-limit count and the cache store each read the clock,
  possibly a few milliseconds apart.
- RateLimit.Recent: the contract fixes how often each timestamp is kept, not
  their order. The definition keeps the log's order, and `RecentAppend` shows
  that appending commutes with the filter, but no decision depends on order.
- Times and TTLs are integers. A fractional TTL in seconds is not modelled.
- The `setInterval` timers that call `cleanup` every five minutes are not
  modelled. `Cleanup` is an ordinary method called explicitly.
- Concurrent requests interleaving on the shared cache and limiters are not
  modelled; each handler call runs to completion.
- All `fetch` calls and JSON parsing are upstream outcomes given as
  parameters. Request URLs appear only as the `Call` values the photo handler
  returns. The `console.error` logging is not modelled.
- The module-level singletons (the global cache and the three limiters) are
  not modelled as globals. The photo handler takes the limiter and the cache
  as arguments. The only limiter any endpoint checks is the one named for
  geocoding, and only the photo endpoint checks it; its limit is the constant
  `GeocodeMaxRequests`. The flight and track limiters are created and swept
  but never checked, so they are not modelled.
- The photo handler is the only user of the cache, and the cache is typed
  for the photo results it stores.
- AircraftPhoto.Handle: the `X-RateLimit-Limit` and `X-RateLimit-Remaining`
  headers that the rate-limit gate sets on an admitted request are not part of
  the photo replies; `RateLimit.CheckRateLimit` states their values.
- CORS headers and the OPTIONS preflight are not modelled, because they are
  transport framing. The same goes for the `X-Cache` header, represented by
  the `CacheHit`/`Fresh` reply kinds, and for the exact wording of JSON error
  messages.
- The other endpoints (geocoding, flight track, diagnostics) and the React
  front end are not part of this model.
