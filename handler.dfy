/**
 The caching handler itself: `ServeHTTP`, `serveAndCache`, the buffering
 callback handed to the response recorder, and `writeResponse`. Each method
 changes the response writer (and the store) step by step, as the handler
 does, and is proved to end in the state the functions of HandlerSpec
 describe.
 */
module Handler {
  import opened Wrappers
  import opened GoInt
  import opened Http
  import opened Store
  import opened CacheObject
  import opened Gob
  import opened CacheConfig
  import opened HandlerSpec

  class Cache {
    const config: Config

    constructor (config: Config)
      ensures this.config == config
    {
      this.config := config;
    }

    /** `writeResponse`: decode the metadata, copy every stored header field onto the
        writer, write the stored status, then copy what is left as the body. */
    method WriteResponse(codec: Codec, w: ResponseWriter, data: seq<byte>) returns (err: Option<Error>)
      modifies w
      ensures Replay(w.State(), err) == ReplayOutcome(codec, old(w.State()), data)
    {
      var decoded := codec.decode(data);
      if decoded.None? {
        return Some(CorruptEntry);
      }
      var hs := decoded.value.0;
      var rest := decoded.value.1;
      var remaining := hs.header.Keys;
      while remaining != {}
        invariant remaining <= hs.header.Keys
        invariant w.State() == old(w.State()).(header := old(w.header) + map k | k in hs.header.Keys - remaining :: hs.header[k])
        decreases remaining
      {
        var k :| k in remaining;
        w.SetHeader(k, hs.header[k]);
        remaining := remaining - {k};
      }
      assert (map k | k in hs.header.Keys - remaining :: hs.header[k]) == hs.header;
      w.WriteHeader(hs.status);
      // io.Copy calls Write only when there is a byte to copy
      if rest != [] {
        w.Write(rest);
      }
      err := None;
    }

    /** `next.ServeHTTP(w, r)` straight on the writer. */
    method ForwardTo(w: ResponseWriter, next: Downstream) returns (err: Option<Error>)
      modifies w
      ensures w.State() == Forward(old(w.State()), next)
      ensures err == HandlerResult(next.err)
    {
      w.SetHeaders(next.header);
      if next.reply.Some? {
        w.WriteHeader(next.reply.value.status);
        w.Write(next.reply.value.body);
      }
      err := HandlerResult(next.err);
    }

    /** The callback `serveAndCache` gives the response recorder: it runs when the
        downstream writes its head, fills in the object from the response header, and
        answers whether to buffer; a declined response gets a Cache-Status detail. */
    method ShouldBuffer(lib: Library, codec: Codec, w: ResponseWriter, obj: Object, status: int)
      returns (buffer: bool, objOut: Object, encoded: seq<byte>)
      modifies w
      ensures var d := CallbackDecision(lib, codec, obj, status, old(w.header));
        && buffer == d.Buffer?
        && (buffer ==> objOut == d.obj && encoded == d.prefix)
        && w.State() == (if d.Stream? && d.detail.Some? then old(w.State()).AddHeader(CACHE_STATUS, d.detail.value)
                         else old(w.State()))
    {
      var respHeaders := w.header;
      var resDir := lib.parseResponseCacheControl(Get(respHeaders, CACHE_CONTROL));
      if resDir.None? {
        w.AddHeader(CACHE_STATUS, MALFORMED_CACHE_CONTROL);
        return false, obj, [];
      }
      objOut := obj;
      var expires := Get(respHeaders, "Expires");
      if expires != "" {
        var t := lib.parseTime(expires);
        if t.None? {
          w.AddHeader(CACHE_STATUS, MALFORMED_EXPIRES);
          return false, obj, [];
        }
        objOut := objOut.(respExpiresHeader := t);
      }
      var date := Get(respHeaders, "Date");
      if date != "" {
        var t := lib.parseTime(date);
        if t.None? {
          w.AddHeader(CACHE_STATUS, MALFORMED_DATE);
          return false, obj, [];
        }
        objOut := objOut.(respDateHeader := t);
      }
      var lastModified := Get(respHeaders, "Last-Modified");
      if lastModified != "" {
        var t := lib.parseTime(lastModified);
        if t.None? {
          w.AddHeader(CACHE_STATUS, MALFORMED_LAST_MODIFIED);
          return false, obj, [];
        }
        objOut := objOut.(respLastModifiedHeader := t);
      }
      objOut := objOut.(respDirectives := resDir, respHeaders := respHeaders, respStatusCode := status);
      var rv := lib.cachableObject(objOut);
      if rv.outErr || |rv.outReasons| > 0 {
        w.AddHeader(CACHE_STATUS, DetailReasons(rv.outReasons));
        return false, obj, [];
      }
      var e := codec.encode(HeaderAndStatus(respHeaders, status));
      if e.None? {
        // the encoding failure is logged and the response is not cached
        return false, obj, [];
      }
      return true, objOut, e.value;
    }

    /** `next.ServeHTTP(rr, r)` through the response recorder: a declined response
        streams to the writer, an accepted one goes to the buffer after the metadata. */
    method Record(lib: Library, codec: Codec, w: ResponseWriter, obj: Object, next: Downstream)
      returns (buffered: bool, buf: seq<byte>, objOut: Object)
      modifies w
      ensures RecordOutcome(lib, codec, obj, next, old(w.State())) == Recorded(w.State(), buffered, buf, objOut)
    {
      w.SetHeaders(next.header);
      buffered, buf, objOut := true, [], obj;
      if next.reply.Some? {
        var reply := next.reply.value;
        var accepted, obj1, prefix := ShouldBuffer(lib, codec, w, obj, reply.status);
        if accepted {
          buf, objOut := prefix + reply.body, obj1;
        } else {
          buffered := false;
          w.WriteHeader(reply.status);
          w.Write(reply.body);
        }
      }
    }

    /** `serveAndCache` */
    method ServeAndCache(lib: Library, codec: Codec, store: DMap, w: ResponseWriter, r: Request,
                         reqDir: RequestDirectives, next: Downstream, key: string, now: int)
      returns (err: Option<Error>)
      modifies w, store
      ensures Outcome(w.State(), store.entries, err)
           == MissOutcome(config, lib, codec, store.faults, r, reqDir, next, key, now, old(w.State()), old(store.entries))
    {
      var obj := InitialObject(r, reqDir, now);
      var buffered, buf, obj1 := Record(lib, codec, w, obj, next);
      if next.err.Some? {
        return HandlerResult(next.err);
      }
      if !buffered || |buf| == 0 {
        return Some(Uncacheable);
      }
      var expiration := lib.expirationObject(obj1);
      var ttl: Int64;
      if expiration.None? {
        ttl := Wrap64(config.defaultTTL * SECOND);
      } else {
        ttl := Sub(expiration.value, now);
      }
      if ttl <= 0 {
        w.AddHeader(CACHE_STATUS, URI_MISS);
        err := WriteResponse(codec, w, buf);
        return;
      }
      var putErr := store.PutEx(key, buf, ttl);
      if putErr.Some? {
        return Some(StoreError(putErr.value));
      }
      w.AddHeader(CACHE_STATUS, STORED);
      err := WriteResponse(codec, w, buf);
    }

    /** `ServeHTTP` */
    method ServeHTTP(lib: Library, codec: Codec, store: DMap, w: ResponseWriter, r: Request,
                     next: Downstream, now: int)
      returns (err: Option<Error>)
      modifies w, store
      ensures Outcome(w.State(), store.entries, err)
           == ServeOutcome(config, lib, codec, store.faults, r, next, now, old(w.State()), old(store.entries))
    {
      if !(r.httpMethod == "GET" || r.httpMethod == "HEAD" || r.httpMethod == "POST") {
        w.AddHeader(CACHE_STATUS, DETAIL_METHOD);
        err := ForwardTo(w, next);
        return;
      }
      var reqDir := lib.parseRequestCacheControl(Get(r.header, CACHE_CONTROL));
      if reqDir.None? || reqDir.value.noCache || reqDir.value.noStore {
        w.AddHeader(CACHE_STATUS, DETAIL_DIRECTIVE);
        err := ForwardTo(w, next);
        return;
      }
      var key := r.host + "-" + r.requestURI + "-" + r.httpMethod;
      var value := store.Get(key);
      if value.GetFailed? {
        return Some(StoreError(value.reason));
      }
      if value.KeyNotFound? {
        err := ServeAndCache(lib, codec, store, w, r, reqDir.value, next, key, now);
        return;
      }
      w.AddHeader(CACHE_STATUS, HIT);
      err := WriteResponse(codec, w, value.value);
    }
  }
}
