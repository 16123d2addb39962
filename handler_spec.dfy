/**
 What the caching handler does to a request, as functions of the state it
 starts from: the response writer's state (`Wire`) and the store's entries.
 `Cache.ServeHTTP` and the methods beside it in module Handler are proved
 to produce exactly these outcomes.

 The downstream handler (`next`) is described by what it does: the header
 fields it sets, the status and body it writes (if it writes anything), and
 the error it returns. `caddyhttp.ResponseRecorder` is described by what
 the handler relies on: the buffering decision runs when the downstream
 writes its head; a declined response streams to the client, an accepted
 one goes to the buffer; and `Buffered()` reports "not streaming", which
 is also true when the downstream wrote nothing.
 */
module HandlerSpec {
  import opened Wrappers
  import opened GoInt
  import opened Http
  import opened Store
  import opened CacheObject
  import opened Gob
  import opened CacheConfig

  const CACHE_STATUS: string := "Cache-Status"
  const CACHE_CONTROL: string := "Cache-Control"
  const USER_AGENT: string := "Caddy"

  const DETAIL_METHOD: string := USER_AGENT + "; fwd=request; detail=METHOD"
  const DETAIL_DIRECTIVE: string := USER_AGENT + "; fwd=request; detail=DIRECTIVE"
  const MALFORMED_CACHE_CONTROL: string := USER_AGENT + "; fwd=request; detail=MALFORMED-CACHE-CONTROL"
  const MALFORMED_EXPIRES: string := USER_AGENT + "; fwd=request; detail=MALFORMED-EXPIRES"
  const MALFORMED_DATE: string := USER_AGENT + "; fwd=request; detail=MALFORMED-DATE"
  const MALFORMED_LAST_MODIFIED: string := USER_AGENT + "; fwd=request; detail=MALFORMED-LAST-MODIFIED"
  const URI_MISS: string := USER_AGENT + "; fwd=uri-miss"
  const STORED: string := USER_AGENT + "; fwd=uri-miss; stored"
  const HIT: string := USER_AGENT + "; hit"

  function Join(items: seq<string>, sep: string): string {
    if |items| == 0 then ""
    else if |items| == 1 then items[0]
    else items[0] + sep + Join(items[1..], sep)
  }

  /** `fmt.Sprintf("%v", reasons)`: "[r1 r2 ...]". */
  function FormatReasons(reasons: seq<string>): string {
    "[" + Join(reasons, " ") + "]"
  }

  /** The Cache-Status value for a response the storability predicate rejects. */
  function DetailReasons(reasons: seq<string>): string {
    USER_AGENT + "; fwd=request; detail=\"" + FormatReasons(reasons) + "\""
  }

  datatype Request = Request(httpMethod: string, host: string, requestURI: string, header: Header)

  datatype Reply = Reply(status: int, body: seq<byte>)

  /** The downstream handler: the header fields it sets, the reply it writes, the error it returns. */
  datatype Downstream = Downstream(header: Header, reply: Option<Reply>, err: Option<string>)

  /** The errors ServeHTTP returns: the downstream's, the store's, a gob decode failure,
      and `errUncacheable`. */
  datatype Error = HandlerError(reason: string) | StoreError(reason: string) | CorruptEntry | Uncacheable

  /** The end state of one request: the writer, the store's entries, the returned error. */
  datatype Outcome = Outcome(wire: Wire, entries: Entries, err: Option<Error>)

  function HandlerResult(err: Option<string>): Option<Error> {
    if err.Some? then Some(HandlerError(err.value)) else None
  }

  /** `next.ServeHTTP(w, r)` on the writer itself, with no recorder in between. */
  function Forward(w: Wire, next: Downstream): Wire {
    var w1 := w.SetHeaders(next.header);
    if next.reply.Some? then w1.WriteHeader(next.reply.value.status).Write(next.reply.value.body) else w1
  }

  // ---------------------------------------------------------------------
  // Request phase

  predicate CacheableMethod(m: string) {
    m == "GET" || m == "HEAD" || m == "POST"
  }

  datatype RequestPhase = Bypass(detail: string) | Proceed(reqDir: RequestDirectives)

  /** The method filter, then the request-directive bypass. */
  function RequestPhaseOf(lib: Library, r: Request): RequestPhase {
    if !CacheableMethod(r.httpMethod) then Bypass(DETAIL_METHOD)
    else
      var reqDir := lib.parseRequestCacheControl(Get(r.header, CACHE_CONTROL));
      if reqDir.None? || reqDir.value.noCache || reqDir.value.noStore then Bypass(DETAIL_DIRECTIVE)
      else Proceed(reqDir.value)
  }

  /** `strings.Join([]string{r.Host, r.RequestURI, r.Method}, "-")` */
  function Key(r: Request): string {
    r.host + "-" + r.requestURI + "-" + r.httpMethod
  }

  // ---------------------------------------------------------------------
  // The response-phase callback

  /** The callback's answer: stream, after adding the Cache-Status detail if there is one,
      or buffer, with the updated object and the encoded metadata that starts the buffer. */
  datatype Decision = Stream(detail: Option<string>) | Buffer(obj: Object, prefix: seq<byte>)

  /** The object serveAndCache starts from. */
  function InitialObject(r: Request, reqDir: RequestDirectives, now: int): Object {
    Object(reqDir, r.header, r.httpMethod, now, None, None, None, None, map[], 0)
  }

  /** Parses a time header of the response unless it is absent. */
  datatype TimeField = Absent | Parsed(t: int) | Malformed

  function ParseTimeField(lib: Library, header: Header, key: string): TimeField {
    var v := Get(header, key);
    if v == "" then Absent
    else if lib.parseTime(v).Some? then Parsed(lib.parseTime(v).value)
    else Malformed
  }

  /** The zero time when absent, the parsed time otherwise. */
  function FieldTime(f: TimeField, prior: Option<int>): Option<int> {
    if f.Parsed? then Some(f.t) else prior
  }

  /** The object as the callback fills it in before the storability predicate runs:
      the response's directives, header and status, and the time fields it parsed. */
  function ObservedObject(lib: Library, obj: Object, status: int, header: Header): Object {
    obj.(
      respExpiresHeader := FieldTime(ParseTimeField(lib, header, "Expires"), obj.respExpiresHeader),
      respDateHeader := FieldTime(ParseTimeField(lib, header, "Date"), obj.respDateHeader),
      respLastModifiedHeader := FieldTime(ParseTimeField(lib, header, "Last-Modified"), obj.respLastModifiedHeader),
      respDirectives := lib.parseResponseCacheControl(Get(header, CACHE_CONTROL)),
      respHeaders := header,
      respStatusCode := status)
  }

  /** The checks in order: Cache-Control, Expires, Date, Last-Modified, the storability
      predicate, the encoding of the metadata. */
  function CallbackDecision(lib: Library, codec: Codec, obj: Object, status: int, header: Header): Decision {
    if lib.parseResponseCacheControl(Get(header, CACHE_CONTROL)).None? then Stream(Some(MALFORMED_CACHE_CONTROL))
    else if ParseTimeField(lib, header, "Expires").Malformed? then Stream(Some(MALFORMED_EXPIRES))
    else if ParseTimeField(lib, header, "Date").Malformed? then Stream(Some(MALFORMED_DATE))
    else if ParseTimeField(lib, header, "Last-Modified").Malformed? then Stream(Some(MALFORMED_LAST_MODIFIED))
    else
      var obj1 := ObservedObject(lib, obj, status, header);
      var rv := lib.cachableObject(obj1);
      if rv.outErr || |rv.outReasons| > 0 then Stream(Some(DetailReasons(rv.outReasons)))
      else
        var encoded := codec.encode(HeaderAndStatus(header, status));
        if encoded.None? then Stream(None)
        else Buffer(obj1, encoded.value)
  }

  // ---------------------------------------------------------------------
  // Replay, TTL, the miss path

  /** The result of `writeResponse`: the writer and the returned error. */
  datatype Replay = Replay(wire: Wire, err: Option<Error>)

  /** `writeResponse`: decode the metadata, set every stored header field, write the stored
      status, then copy the remaining bytes as the body. */
  function ReplayOutcome(codec: Codec, w: Wire, data: seq<byte>): Replay {
    var decoded := codec.decode(data);
    if decoded.None? then Replay(w, Some(CorruptEntry))
    else
      var hs := decoded.value.0;
      var rest := decoded.value.1;
      var w1 := w.SetHeaders(hs.header).WriteHeader(hs.status);
      Replay(if rest == [] then w1 else w1.Write(rest), None)
  }

  /** DefaultTTL seconds when the expiration time is the zero time, otherwise the time
      from now to the expiration. */
  function Ttl(defaultTTL: int, expiration: Option<int>, now: int): Int64 {
    if expiration.None? then Wrap64(defaultTTL * SECOND) else Sub(expiration.value, now)
  }

  /** What running the downstream through the recorder leaves behind. */
  datatype Recorded = Recorded(wire: Wire, buffered: bool, buf: seq<byte>, obj: Object)

  function RecordOutcome(lib: Library, codec: Codec, obj: Object, next: Downstream, w: Wire): Recorded {
    var w1 := w.SetHeaders(next.header);
    if next.reply.None? then Recorded(w1, true, [], obj)
    else
      var reply := next.reply.value;
      var decision := CallbackDecision(lib, codec, obj, reply.status, w1.header);
      if decision.Stream? then
        var w2 := if decision.detail.Some? then w1.AddHeader(CACHE_STATUS, decision.detail.value) else w1;
        Recorded(w2.WriteHeader(reply.status).Write(reply.body), false, [], obj)
      else Recorded(w1, true, decision.prefix + reply.body, decision.obj)
  }

  /** `serveAndCache` */
  function MissOutcome(cfg: Config, lib: Library, codec: Codec, faults: Faults, r: Request, reqDir: RequestDirectives,
                       next: Downstream, key: string, now: int, w: Wire, entries: Entries): Outcome
  {
    var rec := RecordOutcome(lib, codec, InitialObject(r, reqDir, now), next, w);
    if next.err.Some? then Outcome(rec.wire, entries, HandlerResult(next.err))
    else if !rec.buffered || |rec.buf| == 0 then Outcome(rec.wire, entries, Some(Uncacheable))
    else
      var ttl := Ttl(cfg.defaultTTL, lib.expirationObject(rec.obj), now);
      if ttl <= 0 then
        var replay := ReplayOutcome(codec, rec.wire.AddHeader(CACHE_STATUS, URI_MISS), rec.buf);
        Outcome(replay.wire, entries, replay.err)
      else
        var put := Put(entries, faults, key, rec.buf, ttl);
        if put.err.Some? then Outcome(rec.wire, put.entries, Some(StoreError(put.err.value)))
        else
          var replay := ReplayOutcome(codec, rec.wire.AddHeader(CACHE_STATUS, STORED), rec.buf);
          Outcome(replay.wire, put.entries, replay.err)
  }

  /** `ServeHTTP` */
  function ServeOutcome(cfg: Config, lib: Library, codec: Codec, faults: Faults, r: Request,
                        next: Downstream, now: int, w: Wire, entries: Entries): Outcome
  {
    var phase := RequestPhaseOf(lib, r);
    if phase.Bypass? then Outcome(Forward(w.AddHeader(CACHE_STATUS, phase.detail), next), entries, HandlerResult(next.err))
    else
      var found := Lookup(entries, faults, Key(r));
      if found.GetFailed? then Outcome(w, entries, Some(StoreError(found.reason)))
      else if found.KeyNotFound? then MissOutcome(cfg, lib, codec, faults, r, phase.reqDir, next, Key(r), now, w, entries)
      else
        var replay := ReplayOutcome(codec, w.AddHeader(CACHE_STATUS, HIT), found.value);
        Outcome(replay.wire, entries, replay.err)
  }
}
