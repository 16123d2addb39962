/**
 What the caching handler promises, stated over the outcome functions of
 HandlerSpec: which requests bypass the cache, what a hit replays, when a
 response is stored and with what time to live, that a stored response is
 replayed with its status and body, and that the store only ever gains
 entries that decode.
 */
module HandlerProperties {
  import opened Wrappers
  import opened GoInt
  import opened Http
  import opened Store
  import opened CacheObject
  import opened Gob
  import opened CacheConfig
  import opened HandlerSpec

  // ---------------------------------------------------------------------
  // The request phase

  /** GET, HEAD and POST go on to the cache; every other method bypasses it with the
      METHOD detail. (The doc comment of `Cache` names only GET and HEAD.) */
  lemma MethodFilter(lib: Library, r: Request)
    ensures RequestPhaseOf(lib, r) == Bypass(DETAIL_METHOD)
        <==> r.httpMethod != "GET" && r.httpMethod != "HEAD" && r.httpMethod != "POST"
    ensures RequestPhaseOf(lib, r).Proceed? ==> r.httpMethod in {"GET", "HEAD", "POST"}
  {
  }

  /** A request that bypasses the cache (its method, or no-cache, no-store or an
      unparsable Cache-Control) never reaches the store: the outcome is the same
      whatever the store holds and whatever faults it is in, the store is unchanged,
      the Cache-Status detail is added before the downstream runs, and the error is
      the downstream's. */
  lemma BypassIgnoresStore(cfg: Config, lib: Library, codec: Codec, faults: Faults, faults': Faults,
                           r: Request, next: Downstream, now: int, w: Wire, entries: Entries, entries': Entries)
    requires RequestPhaseOf(lib, r).Bypass?
    ensures var o := ServeOutcome(cfg, lib, codec, faults, r, next, now, w, entries);
      && o.entries == entries
      && o.err == HandlerResult(next.err)
      && o.wire == Forward(w.AddHeader(CACHE_STATUS, RequestPhaseOf(lib, r).detail), next)
      && ServeOutcome(cfg, lib, codec, faults', r, next, now, w, entries').wire == o.wire
  {
  }

  /** The bypass conditions of the request phase, in order; in particular a request with
      no-cache or no-store is forwarded even when its key is in the store. */
  lemma RequestDirectiveBypass(lib: Library, r: Request)
    requires CacheableMethod(r.httpMethod)
    ensures var reqDir := lib.parseRequestCacheControl(Get(r.header, CACHE_CONTROL));
      && (RequestPhaseOf(lib, r) == Bypass(DETAIL_DIRECTIVE)
          <==> reqDir.None? || reqDir.value.noCache || reqDir.value.noStore)
      && (RequestPhaseOf(lib, r).Proceed? ==> RequestPhaseOf(lib, r).reqDir == reqDir.value)
  {
  }

  /** A failing lookup returns the store's error and touches nothing: no header is
      added, nothing is written, and the downstream does not run. */
  lemma LookupFailure(cfg: Config, lib: Library, codec: Codec, faults: Faults, r: Request,
                      next: Downstream, next': Downstream, now: int, w: Wire, entries: Entries)
    requires RequestPhaseOf(lib, r).Proceed?
    requires faults.get.Some?
    ensures ServeOutcome(cfg, lib, codec, faults, r, next, now, w, entries)
         == Outcome(w, entries, Some(StoreError(faults.get.value)))
    ensures ServeOutcome(cfg, lib, codec, faults, r, next', now, w, entries)
         == ServeOutcome(cfg, lib, codec, faults, r, next, now, w, entries)
  {
  }

  /** `+` on headers: a field of the right operand replaces the field of the left. */
  lemma OverlayValues(h: Header, overlay: Header, key: string)
    ensures key in overlay ==> Values(h + overlay, key) == overlay[key]
    ensures key !in overlay ==> Values(h + overlay, key) == Values(h, key)
  {
  }

  // ---------------------------------------------------------------------
  // Replaying a stored entry

  /** `writeResponse` on an entry the codec wrote: the stored status goes out once,
      with the writer's header overlaid by the stored one, and the body is exactly the
      bytes after the metadata. */
  lemma ReplayEncoded(codec: Codec, w: Wire, hs: HeaderAndStatus, body: seq<byte>)
    requires PrefixFree(codec)
    requires codec.encode(hs).Some?
    requires w.sent.None?
    ensures var rep := ReplayOutcome(codec, w, codec.encode(hs).value + body);
      && rep.err.None?
      && rep.wire.sent == Some(Head(hs.status, w.header + hs.header))
      && rep.wire.header == w.header + hs.header
      && rep.wire.body == w.body + body
  {
    assert codec.decode(codec.encode(hs).value + body) == Some((hs, body));
  }

  /** A hit: the store is unchanged, the downstream does not run, and the Cache-Status
      "hit" is sent unless the stored header carries a Cache-Status of its own, which
      then replaces every value the field had. */
  lemma HitReplay(cfg: Config, lib: Library, codec: Codec, faults: Faults, r: Request,
                  next: Downstream, next': Downstream, now: int, w: Wire, entries: Entries,
                  hs: HeaderAndStatus, body: seq<byte>)
    requires PrefixFree(codec)
    requires RequestPhaseOf(lib, r).Proceed?
    requires faults.get.None?
    requires codec.encode(hs).Some?
    requires Key(r) in entries && entries[Key(r)].value == codec.encode(hs).value + body
    requires w.sent.None?
    ensures var o := ServeOutcome(cfg, lib, codec, faults, r, next, now, w, entries);
      && o.entries == entries
      && o.err.None?
      && o.wire.sent.Some? && o.wire.sent.value.status == hs.status
      && o.wire.body == w.body + body
      && (CACHE_STATUS !in hs.header ==> Values(o.wire.sent.value.header, CACHE_STATUS) == Values(w.header, CACHE_STATUS) + [HIT])
      && (CACHE_STATUS in hs.header ==> Values(o.wire.sent.value.header, CACHE_STATUS) == hs.header[CACHE_STATUS])
      && ServeOutcome(cfg, lib, codec, faults, r, next', now, w, entries) == o
  {
    var w1 := w.AddHeader(CACHE_STATUS, HIT);
    ReplayEncoded(codec, w1, hs, body);
    OverlayValues(w1.header, hs.header, CACHE_STATUS);
  }

  /** An entry that does not decode: the "hit" has been added, nothing is sent, and
      the decode error is returned. */
  lemma CorruptHit(cfg: Config, lib: Library, codec: Codec, faults: Faults, r: Request,
                   next: Downstream, now: int, w: Wire, entries: Entries)
    requires RequestPhaseOf(lib, r).Proceed?
    requires faults.get.None?
    requires Key(r) in entries && codec.decode(entries[Key(r)].value).None?
    ensures ServeOutcome(cfg, lib, codec, faults, r, next, now, w, entries)
         == Outcome(w.AddHeader(CACHE_STATUS, HIT), entries, Some(CorruptEntry))
  {
  }

  // ---------------------------------------------------------------------
  // The buffering callback

  /** The callback buffers exactly when every check passes; the first check that fails
      decides the Cache-Status detail, whatever the later ones would say: a malformed
      field names that field, a rejection by the storability predicate lists its
      reasons, and a failed encoding adds no detail at all. */
  lemma CallbackChecks(lib: Library, codec: Codec, obj: Object, status: int, header: Header)
    ensures var d := CallbackDecision(lib, codec, obj, status, header);
      var resDir := lib.parseResponseCacheControl(Get(header, CACHE_CONTROL));
      var expires := ParseTimeField(lib, header, "Expires");
      var date := ParseTimeField(lib, header, "Date");
      var lastModified := ParseTimeField(lib, header, "Last-Modified");
      && (resDir.None? ==> d == Stream(Some(MALFORMED_CACHE_CONTROL)))
      && (resDir.Some? && expires.Malformed? ==> d == Stream(Some(MALFORMED_EXPIRES)))
      && (resDir.Some? && !expires.Malformed? && date.Malformed? ==> d == Stream(Some(MALFORMED_DATE)))
      && (resDir.Some? && !expires.Malformed? && !date.Malformed? && lastModified.Malformed?
          ==> d == Stream(Some(MALFORMED_LAST_MODIFIED)))
      && (resDir.Some? && !expires.Malformed? && !date.Malformed? && !lastModified.Malformed?
          && (lib.cachableObject(ObservedObject(lib, obj, status, header)).outErr
              || |lib.cachableObject(ObservedObject(lib, obj, status, header)).outReasons| > 0)
          ==> d == Stream(Some(DetailReasons(lib.cachableObject(ObservedObject(lib, obj, status, header)).outReasons))))
      && (resDir.Some? && !expires.Malformed? && !date.Malformed? && !lastModified.Malformed?
          && !lib.cachableObject(ObservedObject(lib, obj, status, header)).outErr
          && |lib.cachableObject(ObservedObject(lib, obj, status, header)).outReasons| == 0
          && codec.encode(HeaderAndStatus(header, status)).None?
          ==> d == Stream(None))
      && (d.Buffer? <==>
            resDir.Some? && !expires.Malformed? && !date.Malformed? && !lastModified.Malformed?
            && !lib.cachableObject(ObservedObject(lib, obj, status, header)).outErr
            && |lib.cachableObject(ObservedObject(lib, obj, status, header)).outReasons| == 0
            && codec.encode(HeaderAndStatus(header, status)).Some?)
  {
  }

  /** An accepted response: the object the storability predicate and the expiration
      time see has the response's directives, header and status and the times of the
      header fields that are present; the buffer starts with the encoded header and
      status. */
  lemma CallbackBuffer(lib: Library, codec: Codec, obj: Object, status: int, header: Header)
    requires CallbackDecision(lib, codec, obj, status, header).Buffer?
    ensures var d := CallbackDecision(lib, codec, obj, status, header);
      && codec.encode(HeaderAndStatus(header, status)) == Some(d.prefix)
      && d.obj.respDirectives == lib.parseResponseCacheControl(Get(header, CACHE_CONTROL))
      && d.obj.respHeaders == header && d.obj.respStatusCode == status
      && d.obj.reqDirectives == obj.reqDirectives && d.obj.reqHeaders == obj.reqHeaders
      && d.obj.reqMethod == obj.reqMethod && d.obj.nowUTC == obj.nowUTC
      && d.obj.respExpiresHeader == (if Get(header, "Expires") == "" then obj.respExpiresHeader
                                     else lib.parseTime(Get(header, "Expires")))
      && d.obj.respDateHeader == (if Get(header, "Date") == "" then obj.respDateHeader
                                  else lib.parseTime(Get(header, "Date")))
      && d.obj.respLastModifiedHeader == (if Get(header, "Last-Modified") == "" then obj.respLastModifiedHeader
                                          else lib.parseTime(Get(header, "Last-Modified")))
  {
  }

  // ---------------------------------------------------------------------
  // The miss path

  /** The largest number of whole seconds a Duration holds. */
  const MAX_TTL_SECONDS: int := 9_223_372_036

  /** The time to live: DefaultTTL seconds when the expiration is the zero time (exactly,
      when that fits a Duration), otherwise positive exactly when the expiration lies
      after now, and the exact difference when that fits. */
  lemma TtlMeaning(defaultTTL: Int64, expiration: Option<int>, now: int)
    ensures expiration.None? && -MAX_TTL_SECONDS <= defaultTTL <= MAX_TTL_SECONDS
            ==> Ttl(defaultTTL, expiration, now) == defaultTTL * SECOND
    ensures expiration.None? && 0 < defaultTTL <= MAX_TTL_SECONDS ==> Ttl(defaultTTL, expiration, now) > 0
    ensures expiration.None? && -MAX_TTL_SECONDS <= defaultTTL <= 0 ==> Ttl(defaultTTL, expiration, now) <= 0
    ensures expiration.Some? ==> (Ttl(defaultTTL, expiration, now) > 0 <==> expiration.value > now)
    ensures expiration.Some? && InInt64(expiration.value - now) ==> Ttl(defaultTTL, expiration, now) == expiration.value - now
  {
    if expiration.None? && -MAX_TTL_SECONDS <= defaultTTL <= MAX_TTL_SECONDS {
      assert MAX_TTL_SECONDS * SECOND <= MAX_INT64;
      assert InInt64(defaultTTL * SECOND);
    }
  }

  /** A downstream that writes nothing leaves an empty buffer: nothing is stored, nothing
      is sent, and `errUncacheable` is returned unless the downstream failed. */
  lemma NothingWritten(cfg: Config, lib: Library, codec: Codec, faults: Faults, r: Request,
                       next: Downstream, now: int, w: Wire, entries: Entries)
    requires RequestPhaseOf(lib, r).Proceed?
    requires faults.get.None? && Key(r) !in entries
    requires next.reply.None?
    ensures var o := ServeOutcome(cfg, lib, codec, faults, r, next, now, w, entries);
      && o.entries == entries
      && o.wire == w.SetHeaders(next.header)
      && o.err == (if next.err.Some? then Some(HandlerError(next.err.value)) else Some(Uncacheable))
  {
  }

  /** A response the callback declines streams straight to the client, after the
      Cache-Status detail; nothing is stored and `errUncacheable` is returned unless the
      downstream failed. */
  lemma DeclinedStreams(cfg: Config, lib: Library, codec: Codec, faults: Faults, r: Request,
                        next: Downstream, now: int, w: Wire, entries: Entries)
    requires RequestPhaseOf(lib, r).Proceed?
    requires faults.get.None? && Key(r) !in entries
    requires next.reply.Some? && w.sent.None?
    requires CallbackDecision(lib, codec, InitialObject(r, RequestPhaseOf(lib, r).reqDir, now),
                              next.reply.value.status, w.header + next.header).Stream?
    ensures var o := ServeOutcome(cfg, lib, codec, faults, r, next, now, w, entries);
      var d := CallbackDecision(lib, codec, InitialObject(r, RequestPhaseOf(lib, r).reqDir, now),
                                next.reply.value.status, w.header + next.header);
      var h := w.header + next.header;
      && o.entries == entries
      && o.err == (if next.err.Some? then Some(HandlerError(next.err.value)) else Some(Uncacheable))
      && o.wire.sent == Some(Head(next.reply.value.status,
                                  if d.detail.Some? then Add(h, CACHE_STATUS, d.detail.value) else h))
      && o.wire.body == w.body + next.reply.value.body
  {
  }

  /** The store decision for a buffered response: a time to live that is not positive
      serves the response marked "uri-miss" without storing it; a positive one stores the
      whole buffer under the key, with that time to live, and marks the response
      "stored"; a failing store returns its error, and then nothing is sent at all. */
  lemma StoreDecision(cfg: Config, lib: Library, codec: Codec, faults: Faults, r: Request,
                      next: Downstream, now: int, w: Wire, entries: Entries)
    requires PrefixFree(codec)
    requires RequestPhaseOf(lib, r).Proceed?
    requires faults.get.None? && Key(r) !in entries
    requires next.reply.Some? && next.err.None? && w.sent.None?
    requires CallbackDecision(lib, codec, InitialObject(r, RequestPhaseOf(lib, r).reqDir, now),
                              next.reply.value.status, w.header + next.header).Buffer?
    ensures var o := ServeOutcome(cfg, lib, codec, faults, r, next, now, w, entries);
      var d := CallbackDecision(lib, codec, InitialObject(r, RequestPhaseOf(lib, r).reqDir, now),
                                next.reply.value.status, w.header + next.header);
      var ttl := Ttl(cfg.defaultTTL, lib.expirationObject(d.obj), now);
      var h := w.header + next.header;
      && (ttl <= 0 ==> o.entries == entries && o.err.None?
                       && o.wire.sent == Some(Head(next.reply.value.status, Add(h, CACHE_STATUS, URI_MISS) + h)))
      && (ttl > 0 && faults.put.None? ==>
            o.entries == entries[Key(r) := Entry(d.prefix + next.reply.value.body, ttl)] && o.err.None?
            && o.wire.sent == Some(Head(next.reply.value.status, Add(h, CACHE_STATUS, STORED) + h)))
      && (ttl > 0 && faults.put.Some? ==>
            o.entries == entries && o.err == Some(StoreError(faults.put.value))
            && o.wire == w.SetHeaders(next.header))
      && (o.err.None? ==> o.wire.body == w.body + next.reply.value.body)
  {
    var d := CallbackDecision(lib, codec, InitialObject(r, RequestPhaseOf(lib, r).reqDir, now),
                              next.reply.value.status, w.header + next.header);
    var hs := HeaderAndStatus(w.header + next.header, next.reply.value.status);
    CallbackBuffer(lib, codec, InitialObject(r, RequestPhaseOf(lib, r).reqDir, now), hs.status, hs.header);
    var w1 := w.SetHeaders(next.header);
    ReplayEncoded(codec, w1.AddHeader(CACHE_STATUS, URI_MISS), hs, next.reply.value.body);
    ReplayEncoded(codec, w1.AddHeader(CACHE_STATUS, STORED), hs, next.reply.value.body);
  }

  // ---------------------------------------------------------------------
  // The store across requests

  /** Every entry decodes and was put with a positive time to live. */
  ghost predicate Decodable(codec: Codec, entries: Entries) {
    forall k :: k in entries ==> codec.decode(entries[k].value).Some? && entries[k].ttl > 0
  }

  /** Whatever the recorder buffered after an accepted head decodes, and is never empty. */
  lemma RecordedDecodes(lib: Library, codec: Codec, obj: Object, next: Downstream, w: Wire)
    requires PrefixFree(codec)
    ensures var rec := RecordOutcome(lib, codec, obj, next, w);
      rec.buffered && |rec.buf| > 0 ==> codec.decode(rec.buf).Some?
  {
    var w1 := w.SetHeaders(next.header);
    if next.reply.Some? && CallbackDecision(lib, codec, obj, next.reply.value.status, w1.header).Buffer? {
      var hs := HeaderAndStatus(w1.header, next.reply.value.status);
      CallbackBuffer(lib, codec, obj, hs.status, hs.header);
      assert codec.decode(codec.encode(hs).value + next.reply.value.body) == Some((hs, next.reply.value.body));
    }
  }

  /** The miss path changes the store at the given key at most, to an entry that decodes
      and has a positive time to live, and replays only what decodes. */
  lemma MissKeepsDecodable(cfg: Config, lib: Library, codec: Codec, faults: Faults, r: Request,
                           reqDir: RequestDirectives, next: Downstream, key: string, now: int,
                           w: Wire, entries: Entries)
    requires PrefixFree(codec)
    ensures var o := MissOutcome(cfg, lib, codec, faults, r, reqDir, next, key, now, w, entries);
      && (o.entries == entries
          || (key in o.entries && o.entries == entries[key := o.entries[key]]
              && codec.decode(o.entries[key].value).Some? && o.entries[key].ttl > 0))
      && o.err != Some(CorruptEntry)
  {
    RecordedDecodes(lib, codec, InitialObject(r, reqDir, now), next, w);
  }

  /** One request changes the store at its own key at most, and only to an entry that
      decodes and has a positive time to live; so a store whose entries all decode keeps
      that property, and the handler never meets an entry it cannot decode. */
  lemma ServeKeepsDecodable(cfg: Config, lib: Library, codec: Codec, faults: Faults, r: Request,
                            next: Downstream, now: int, w: Wire, entries: Entries)
    requires PrefixFree(codec)
    requires Decodable(codec, entries)
    ensures var o := ServeOutcome(cfg, lib, codec, faults, r, next, now, w, entries);
      && Decodable(codec, o.entries)
      && (o.entries == entries || (Key(r) in o.entries && o.entries == entries[Key(r) := o.entries[Key(r)]]))
      && o.err != Some(CorruptEntry)
  {
    var phase := RequestPhaseOf(lib, r);
    if phase.Proceed? && Lookup(entries, faults, Key(r)).KeyNotFound? {
      MissKeepsDecodable(cfg, lib, codec, faults, r, phase.reqDir, next, Key(r), now, w, entries);
    }
  }

  /** The handler's key joins host, request URI and method with "-", which is ambiguous:
      two requests for different hosts and URIs share a key, and so one can be answered
      with the response stored for the other. */
  lemma KeyCollision(h: Header)
    ensures var r1 := Request("GET", "a-b", "/c", h);
      var r2 := Request("GET", "a", "b-/c", h);
      && r1.host != r2.host && r1.requestURI != r2.requestURI
      && Key(r1) == Key(r2)
  {
    var r1 := Request("GET", "a-b", "/c", h);
    var r2 := Request("GET", "a", "b-/c", h);
    assert Key(r1) == "a-b-/c-GET";
    assert Key(r2) == "a-b-/c-GET";
  }

  /**
   A response stored by one request is what the next request with the same key gets:
   the first one reaches the client with its status and body marked "stored"; the
   second is a hit that sends the same status, the same body and every header field of
   the first response except Cache-Status, which reads "hit", without running its own
   downstream.
   */
  lemma StoreThenHit(cfg: Config, lib: Library, codec: Codec, r: Request, r': Request,
                     next: Downstream, next': Downstream, now: int, now': int,
                     h: Header, h': Header, entries: Entries)
    requires PrefixFree(codec)
    requires RequestPhaseOf(lib, r).Proceed? && RequestPhaseOf(lib, r').Proceed?
    requires Key(r') == Key(r) && Key(r) !in entries
    requires next.reply.Some? && next.err.None?
    requires CACHE_STATUS !in h && CACHE_STATUS !in next.header && CACHE_STATUS !in h'
    requires CallbackDecision(lib, codec, InitialObject(r, RequestPhaseOf(lib, r).reqDir, now),
                              next.reply.value.status, h + next.header).Buffer?
    requires Ttl(cfg.defaultTTL,
                 lib.expirationObject(CallbackDecision(lib, codec, InitialObject(r, RequestPhaseOf(lib, r).reqDir, now),
                                                       next.reply.value.status, h + next.header).obj), now) > 0
    ensures var o1 := ServeOutcome(cfg, lib, codec, Faults(None, None), r, next, now, Wire(h, None, []), entries);
      var o2 := ServeOutcome(cfg, lib, codec, Faults(None, None), r', next', now', Wire(h', None, []), o1.entries);
      && o1.err.None? && o2.err.None?
      && o1.wire.sent.Some? && o2.wire.sent.Some?
      && o1.wire.sent.value.status == next.reply.value.status == o2.wire.sent.value.status
      && o1.wire.body == next.reply.value.body == o2.wire.body
      && Get(o1.wire.sent.value.header, CACHE_STATUS) == STORED
      && Get(o2.wire.sent.value.header, CACHE_STATUS) == HIT
      && (forall k :: k in o1.wire.sent.value.header && k != CACHE_STATUS ==>
            k in o2.wire.sent.value.header && o2.wire.sent.value.header[k] == o1.wire.sent.value.header[k])
      && o2.entries == o1.entries
  {
    var w := Wire(h, None, []);
    var faults := Faults(None, None);
    var H := h + next.header;
    var obj := InitialObject(r, RequestPhaseOf(lib, r).reqDir, now);
    var d := CallbackDecision(lib, codec, obj, next.reply.value.status, H);
    var hs := HeaderAndStatus(H, next.reply.value.status);
    StoreDecision(cfg, lib, codec, faults, r, next, now, w, entries);
    CallbackBuffer(lib, codec, obj, hs.status, H);
    var o1 := ServeOutcome(cfg, lib, codec, faults, r, next, now, w, entries);
    assert o1.entries[Key(r)].value == codec.encode(hs).value + next.reply.value.body;
    OverlayValues(Add(H, CACHE_STATUS, STORED), H, CACHE_STATUS);
    HitReplay(cfg, lib, codec, faults, r', next', next', now', Wire(h', None, []), o1.entries, hs, next.reply.value.body);
    OverlayValues(Add(h', CACHE_STATUS, HIT), H, CACHE_STATUS);
  }
}
