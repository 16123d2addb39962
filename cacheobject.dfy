/**
 The libraries the handler consults and whose code is not part of this
 model: github.com/pquerna/cachecontrol/cacheobject (directive parsing,
 the storability predicate, the expiration time), `http.ParseTime`, and
 the gob codec. Each is a function the caller supplies; the model depends
 on nothing about them except, for gob, that its messages are prefix-free.
 */
module CacheObject {
  import opened Wrappers
  import opened Http

  /** The parsed request Cache-Control; the directives other than no-cache and
      no-store are consumed only by the library itself. */
  datatype RequestDirectives = RequestDirectives(noCache: bool, noStore: bool, others: seq<string>)

  /** The parsed response Cache-Control, consumed only by the library. */
  datatype ResponseDirectives = ResponseDirectives(directives: seq<string>)

  /** `cacheobject.Object`. A time that is the zero `time.Time` is None. */
  datatype Object = Object(
    reqDirectives: RequestDirectives,
    reqHeaders: Header,
    reqMethod: string,
    nowUTC: int,
    respExpiresHeader: Option<int>,
    respDateHeader: Option<int>,
    respLastModifiedHeader: Option<int>,
    respDirectives: Option<ResponseDirectives>,
    respHeaders: Header,
    respStatusCode: int)

  /** What `CachableObject` leaves in `ObjectResults`: whether OutErr is set, and OutReasons
      as their string forms. */
  datatype Cachability = Cachability(outErr: bool, outReasons: seq<string>)

  datatype Library = Library(
    /** `ParseRequestCacheControl`; None is a parse error. */
    parseRequestCacheControl: string -> Option<RequestDirectives>,
    /** `ParseResponseCacheControl`; None is a parse error. */
    parseResponseCacheControl: string -> Option<ResponseDirectives>,
    /** `http.ParseTime`; None is a parse error. */
    parseTime: string -> Option<int>,
    cachableObject: Object -> Cachability,
    /** `ExpirationObject`'s OutExpirationTime; None is the zero time. */
    expirationObject: Object -> Option<int>)
}

/** The gob encoding of a cache entry's metadata. */
module Gob {
  import opened Wrappers
  import opened Http

  /** `headerAndStatus` */
  datatype HeaderAndStatus = HeaderAndStatus(header: Header, status: int)

  /** `Encode` (None when it fails) and `Decode`, which returns the decoded
      message and the bytes it did not read. */
  datatype Codec = Codec(
    encode: HeaderAndStatus -> Option<seq<byte>>,
    decode: seq<byte> -> Option<(HeaderAndStatus, seq<byte>)>)

  /** A gob message is self-delimiting: it is never empty (it starts with its
      length), and a decoder reading from a bytes.Buffer gives back the message
      and reads no byte past it. */
  ghost predicate PrefixFree(codec: Codec) {
    forall m, rest :: codec.encode(m).Some? ==>
      |codec.encode(m).value| > 0 && codec.decode(codec.encode(m).value + rest) == Some((m, rest))
  }
}
