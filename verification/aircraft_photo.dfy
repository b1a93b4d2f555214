/** The aircraft-photo endpoint: a rate-limit gate, identifier validation, a
    cache lookup, optional ICAO24 -> registration resolution, the photo lookup,
    and the choice of the reply and of how long it is cached. The two upstream
    requests are given as their outcomes; the clock is the explicit parameter
    `now` (milliseconds). */
module AircraftPhoto {
  import opened Js
  import opened Cache
  import opened RateLimit

  /** How long a reply without a photo is cached: one hour. */
  const NegativeTtlSeconds := 3600
  /** How long a reply with photo data is cached: seven days. */
  const PositiveTtlSeconds := 604800

  /** The outcome of one upstream request. */
  datatype Fetch<T> =
    | NotOk        // a non-2xx response
    | Threw        // fetch or JSON parsing threw
    | Ok(body: T)  // the parsed body

  /** The aircraft metadata body: its `registration` field. */
  datatype AircraftMetadata = AircraftMetadata(registration: Option<string>)

  /** One element of the photo provider's `photos` array. */
  datatype Photo = Photo(
    imageSrc: Option<string>,      // photo.image.src
    thumbnailSrc: Option<string>,  // photo.thumbnail.src
    photographer: Option<string>,
    link: Option<string>)

  /** The photo provider's body: its `photos` field. */
  datatype PhotoPage = PhotoPage(photos: Option<seq<Photo>>)

  /** The upstream requests the handler makes, in order. */
  datatype Call =
    | MetadataLookup(icao24: string)      // by lower-cased ICAO24
    | PhotoLookup(registration: string)

  /** The result object that is answered and cached. */
  datatype PhotoResult =
    | NoPhoto(registration: string)   // photoUrl, thumbnail, photographer null; no `link` key
    | PhotoFound(registration: string, photoUrl: Option<string>, thumbnail: Option<string>,
                 photographer: Option<string>, link: Option<string>)

  /** The endpoint's answers. */
  datatype Reply =
    | RateLimited(limit: LimitReply)    // 429 from the rate-limit gate
    | MissingIdentifier                 // 400 'Either ICAO24 or registration is required'
    | CacheHit(result: PhotoResult)     // 200, X-Cache: HIT
    | RegistrationNotFound              // 404 with photoUrl null, X-Cache: MISS
    | Fresh(result: PhotoResult)        // 200, X-Cache: MISS
    | Unavailable(registration: string) // 200 with photo fields null and an error message

  function Status(r: Reply): int {
    match r
    case RateLimited(_) => TooManyRequestsStatus
    case MissingIdentifier => 400
    case CacheHit(_) => 200
    case RegistrationNotFound => 404
    case Fresh(_) => 200
    case Unavailable(_) => 200
  }

  /** `photo:${icao24 || registration}`. */
  function CacheKey(icao24: Option<string>, registration: Option<string>): (key: string)
    requires Truthy(icao24) || Truthy(registration)
    ensures |key| > 6 && key[..6] == "photo:"
    ensures Truthy(icao24) ==> key[6..] == icao24.value
    ensures !Truthy(icao24) ==> key[6..] == registration.value
  {
    "photo:" + (if Truthy(icao24) then icao24.value else registration.value)
  }

  /** Distinct `icao24 || registration` values never share a cache entry. */
  lemma CacheKeyInjective(icao1: Option<string>, reg1: Option<string>, icao2: Option<string>, reg2: Option<string>)
    requires Truthy(icao1) || Truthy(reg1)
    requires Truthy(icao2) || Truthy(reg2)
    requires CacheKey(icao1, reg1) == CacheKey(icao2, reg2)
    ensures Or(icao1, reg1) == Or(icao2, reg2)
  {
    var k1, k2 := CacheKey(icao1, reg1), CacheKey(icao2, reg2);
    assert k1[6..] == k2[6..];
  }

  /** With a truthy `icao24` the key does not depend on `registration`: a
      request with the same `icao24` and another registration reads the same
      entry. */
  lemma CacheKeyIgnoresRegistration(icao24: Option<string>, reg1: Option<string>, reg2: Option<string>)
    requires Truthy(icao24)
    ensures CacheKey(icao24, reg1) == CacheKey(icao24, reg2) == "photo:" + icao24.value
  {
  }

  /** What happens on a cache miss: the reply, the upstream calls made and what
      is stored, with its TTL. */
  datatype MissOutcome = MissOutcome(reply: Reply, calls: seq<Call>, store: Option<(PhotoResult, int)>)

  /** The photo result built from the provider's body: the first photo's fields,
      each null when missing. */
  function ResultFromPage(registration: string, page: PhotoPage): (r: PhotoResult)
    ensures r.PhotoFound? && r.registration == registration
    ensures (page.photos.None? || page.photos.value == []) ==>
              r.photoUrl.None? && r.thumbnail.None? && r.photographer.None? && r.link.None?
    ensures page.photos.Some? && page.photos.value != [] ==>
              var photo := page.photos.value[0];
              && (Truthy(photo.imageSrc) ==> r.photoUrl == photo.imageSrc)
              && (!Truthy(photo.imageSrc) ==> r.photoUrl.None?)
              && (Truthy(photo.thumbnailSrc) ==> r.thumbnail == photo.thumbnailSrc)
              && (!Truthy(photo.thumbnailSrc) ==> r.thumbnail.None?)
              && (Truthy(photo.photographer) ==> r.photographer == photo.photographer)
              && (!Truthy(photo.photographer) ==> r.photographer.None?)
              && (Truthy(photo.link) ==> r.link == photo.link)
              && (!Truthy(photo.link) ==> r.link.None?)
    ensures r.photoUrl.Some? ==> r.photoUrl.value != ""
  {
    if page.photos.Some? && |page.photos.value| > 0 then
      var photo := page.photos.value[0];
      PhotoFound(registration, OrNull(photo.imageSrc), OrNull(photo.thumbnailSrc), OrNull(photo.photographer), OrNull(photo.link))
    else
      PhotoFound(registration, None, None, None, None)
  }

  /** The body of the `try` block on a cache miss. */
  function ResolveAndFetch(icao24: Option<string>, registration: Option<string>,
                           metadata: Fetch<AircraftMetadata>, photos: Fetch<PhotoPage>): (m: MissOutcome)
    ensures (|m.calls| > 0 && m.calls[0].MetadataLookup?) <==> !Truthy(registration) && Truthy(icao24)
    ensures !Truthy(registration) && Truthy(icao24) ==> m.calls[0] == MetadataLookup(AsciiLower(icao24.value))
    ensures Truthy(registration) ==> m.calls == [PhotoLookup(registration.value)]
    ensures m.reply.Fresh? || m.reply.RegistrationNotFound? || m.reply.Unavailable?
    ensures m.store.Some? <==> m.reply.Fresh?
    ensures m.store.Some? ==>
              && m.store.value.0 == m.reply.result
              && m.store.value.1 == (if m.reply.result.NoPhoto? then NegativeTtlSeconds else PositiveTtlSeconds)
    ensures m.reply.RegistrationNotFound? ==> forall c | c in m.calls :: c.MetadataLookup?
    ensures m.reply.Unavailable? ==> m.reply.registration == OrElse(registration, "unknown")
    ensures m.reply.Fresh? ==>
              && |m.calls| > 0 && m.calls[|m.calls| - 1] == PhotoLookup(m.reply.result.registration)
              && m.reply.result.registration != ""
              && (Truthy(registration) ==> m.reply.result.registration == registration.value)
    ensures m.reply.Fresh? && photos.NotOk? ==> m.reply.result == NoPhoto(m.reply.result.registration)
    ensures m.reply.Fresh? && photos.Ok? ==> m.reply.result.PhotoFound?
    ensures photos.Threw? ==> !m.reply.Fresh?
    // From the inputs to the outcome: the registration the photo lookup uses ...
    ensures !Truthy(registration) && Truthy(icao24) ==>
              && (metadata.Threw? ==> m == MissOutcome(Unavailable("unknown"), [MetadataLookup(AsciiLower(icao24.value))], None))
              && ((metadata.NotOk? || (metadata.Ok? && !Truthy(metadata.body.registration))) ==>
                    m == MissOutcome(RegistrationNotFound, [MetadataLookup(AsciiLower(icao24.value))], None))
              && (metadata.Ok? && Truthy(metadata.body.registration) ==>
                    m.calls == [MetadataLookup(AsciiLower(icao24.value)), PhotoLookup(metadata.body.registration.value)])
    ensures !Truthy(registration) && !Truthy(icao24) ==> m == MissOutcome(RegistrationNotFound, [], None)
    // ... and, once it is known, what the photo outcome gives.
    ensures |m.calls| > 0 && m.calls[|m.calls| - 1].PhotoLookup? ==>
              var reg := m.calls[|m.calls| - 1].registration;
              && (photos.Threw? ==> m.reply == Unavailable(OrElse(registration, "unknown")) && m.store.None?)
              && (photos.NotOk? ==> m.reply == Fresh(NoPhoto(reg)) && m.store == Some((NoPhoto(reg), NegativeTtlSeconds)))
              && (photos.Ok? ==> m.reply == Fresh(ResultFromPage(reg, photos.body))
                                 && m.store == Some((ResultFromPage(reg, photos.body), PositiveTtlSeconds)))
  {
    var resolve := !Truthy(registration) && Truthy(icao24);
    var metaCalls := if resolve then [MetadataLookup(AsciiLower(icao24.value))] else [];
    if resolve && metadata.Threw? then
      MissOutcome(Unavailable(OrElse(registration, "unknown")), metaCalls, None)
    else
      var reg := if !resolve then registration else if metadata.Ok? then metadata.body.registration else None;
      if !Truthy(reg) then
        MissOutcome(RegistrationNotFound, metaCalls, None)
      else
        var calls := metaCalls + [PhotoLookup(reg.value)];
        match photos
        case Threw =>
          MissOutcome(Unavailable(OrElse(registration, "unknown")), calls, None)
        case NotOk =>
          MissOutcome(Fresh(NoPhoto(reg.value)), calls, Some((NoPhoto(reg.value), NegativeTtlSeconds)))
        case Ok(page) =>
          var result := ResultFromPage(reg.value, page);
          MissOutcome(Fresh(result), calls, Some((result, PositiveTtlSeconds)))
  }

  /** The cache map after a miss: the read's eviction, then the store if any. */
  function AfterMiss(entries: map<string, Entry<PhotoResult>>, key: string, now: int,
                     store: Option<(PhotoResult, int)>): map<string, Entry<PhotoResult>> {
    var read := AfterRead(entries, key, now);
    if store.Some? then read[key := Entry(store.value.0, ExpiryOf(now, store.value.1))] else read
  }

  /** The handler for a GET request from `client` with query `icao24` and
      `registration`, gated by `limiter` (the 30-per-minute limiter named for
      geocoding, which only this endpoint checks) and backed by the
      process-wide `cache`. */
  method Handle(client: ClientRequest, icao24: Option<string>, registration: Option<string>,
                limiter: RateLimiter, cache: SimpleCache<PhotoResult>,
                metadata: Fetch<AircraftMetadata>, photos: Fetch<PhotoPage>, now: int)
    returns (reply: Reply, calls: seq<Call>)
    requires limiter.Valid()
    modifies limiter, cache
    ensures limiter.Valid()
    ensures var ip := GetClientIP(client);
            var d := Admit(LogOf(old(limiter.requests), ip), now, limiter.maxRequests, limiter.windowSeconds);
            && limiter.requests == old(limiter.requests)[ip := d.log]
            && (d.limited ==> reply == RateLimited(TooManyRequests(limiter.maxRequests, 0, limiter.windowSeconds)) && calls == []
                              && cache.entries == old(cache.entries))
            && (!d.limited && !Truthy(icao24) && !Truthy(registration) ==>
                  reply == MissingIdentifier && calls == [] && cache.entries == old(cache.entries))
            && (!d.limited && (Truthy(icao24) || Truthy(registration)) ==>
                  Served(old(cache.entries), cache.entries, icao24, registration, metadata, photos, now, reply, calls))
  {
    ghost var entries := cache.entries;
    var allowed, limitReply := CheckRateLimit(limiter, client, now);
    assert cache.entries == entries;
    ghost var d := Admit(LogOf(old(limiter.requests), GetClientIP(client)), now, limiter.maxRequests, limiter.windowSeconds);
    assert allowed == !d.limited;
    if !allowed {
      assert limitReply == TooManyRequests(limiter.maxRequests, 0, limiter.windowSeconds);
      return RateLimited(limitReply), [];
    }
    if !Truthy(icao24) && !Truthy(registration) {
      return MissingIdentifier, [];
    }
    reply, calls := Serve(cache, icao24, registration, metadata, photos, now);
  }

  /** What serving an identified request does, from the cache map `before` to
      `after`: a live cached result is answered with no upstream call and no
      change; otherwise the miss path runs and its result, if any, is stored
      under the key with its TTL. */
  ghost predicate Served(before: map<string, Entry<PhotoResult>>, after: map<string, Entry<PhotoResult>>,
                         icao24: Option<string>, registration: Option<string>,
                         metadata: Fetch<AircraftMetadata>, photos: Fetch<PhotoPage>, now: int,
                         reply: Reply, calls: seq<Call>)
    requires Truthy(icao24) || Truthy(registration)
  {
    var key := CacheKey(icao24, registration);
    var cached := Lookup(before, key, now);
    && (cached.Some? ==> reply == CacheHit(cached.value) && calls == [] && after == before)
    && (cached.None? ==>
          var m := ResolveAndFetch(icao24, registration, metadata, photos);
          reply == m.reply && calls == m.calls && after == AfterMiss(before, key, now, m.store))
  }

  /** The part of the handler after validation: the cache read, then on a miss
      the upstream requests and the store. */
  method Serve(cache: SimpleCache<PhotoResult>, icao24: Option<string>, registration: Option<string>,
               metadata: Fetch<AircraftMetadata>, photos: Fetch<PhotoPage>, now: int)
    returns (reply: Reply, calls: seq<Call>)
    requires Truthy(icao24) || Truthy(registration)
    modifies cache
    ensures Served(old(cache.entries), cache.entries, icao24, registration, metadata, photos, now, reply, calls)
  {
    var cacheKey := CacheKey(icao24, registration);
    var cachedData := cache.Get(cacheKey, now);
    if cachedData.Some? {
      return CacheHit(cachedData.value), [];
    }
    var m := ResolveAndFetch(icao24, registration, metadata, photos);
    if m.store.Some? {
      cache.Set(cacheKey, m.store.value.0, now, m.store.value.1);
    }
    reply, calls := m.reply, m.calls;
  }

  /** The photo endpoint's gate, the limiter created with 30 requests per
      minute: a client's first 30 requests inside one minute pass and the 31st
      is rejected. */
  lemma PhotoGateBurst(times: seq<int>, boundary: int)
    requires |times| == GeocodeMaxRequests + 1
    requires forall i | 0 <= i < |times| :: boundary < times[i] && WindowStart(times[i], WindowSecondsPerMinute) <= boundary
    ensures forall i | 0 <= i < GeocodeMaxRequests :: !Run([], times, GeocodeMaxRequests, WindowSecondsPerMinute).0[i]
    ensures Run([], times, GeocodeMaxRequests, WindowSecondsPerMinute).0[GeocodeMaxRequests]
  {
    NPlusOneLimited(times, GeocodeMaxRequests, WindowSecondsPerMinute, boundary);
  }

  /** A repeated request inside the TTL is answered from the cache: after a miss
      that stored a result, the same identifiers at any instant up to the
      result's expiry read it back, without any upstream call. */
  lemma StoredResultIsServed(entries: map<string, Entry<PhotoResult>>, icao24: Option<string>, registration: Option<string>,
                             metadata: Fetch<AircraftMetadata>, photos: Fetch<PhotoPage>, now: int, later: int)
    requires Truthy(icao24) || Truthy(registration)
    requires ResolveAndFetch(icao24, registration, metadata, photos).store.Some?
    requires later <= now + ResolveAndFetch(icao24, registration, metadata, photos).store.value.1 * 1000
    ensures var m := ResolveAndFetch(icao24, registration, metadata, photos);
            var key := CacheKey(icao24, registration);
            Lookup(AfterMiss(entries, key, now, m.store), key, later) == Some(m.reply.result)
  {
  }

  /** The photo lookup failing for a known registration is not an error: the
      reply is a 200 whose photo fields are null, cached for an hour. */
  lemma PhotoFailureDegrades(icao24: Option<string>, registration: Option<string>, metadata: Fetch<AircraftMetadata>)
    requires Truthy(registration)
    ensures var m := ResolveAndFetch(icao24, registration, metadata, NotOk);
            && m.reply == Fresh(NoPhoto(registration.value))
            && Status(m.reply) == 200
            && m.store == Some((NoPhoto(registration.value), NegativeTtlSeconds))
  {
  }
}
