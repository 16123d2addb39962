# cache-handler, modelled in Dafny

This project models the core of Caddy's distributed HTTP cache handler, the
`http.handlers.cache` module. The handler does the following:

- A request whose method is not GET, HEAD or POST is passed straight to
  the next handler. So is a request whose Cache-Control fails to parse or
  carries no-cache or no-store.
- Every other request is looked up in an Olric distributed map, under the
  key `host-requestURI-method`. A failing lookup returns the store's error.
- On a hit, it replays the stored entry. An entry is the gob-encoded header
  and status followed by the body.
- On a miss, it runs the rest of the chain through a response recorder. A
  callback then decides, from the response's Cache-Control, Expires, Date and
  Last-Modified fields and the cacheobject storability rules, whether to
  buffer the response.
- A buffered response gets a time to live. The TTL comes from the response's
  expiration time, or from `default_ttl` when that time is zero.
- A TTL that is not positive means the response is served from the buffer,
  marked "uri-miss", and not stored.
- A positive TTL means the response is stored and then served from the
  buffer, marked "stored". If storing fails, the store's error is returned
  and nothing is sent.
- A `Cache-Status` value is added on a bypass (the METHOD or DIRECTIVE
  detail), when the callback declines with a detail, on "uri-miss", on
  "stored" and on a hit. On a hit, on "uri-miss" and on "stored", the
  response is replayed through `writeResponse`, so a `Cache-Status` in the
  stored header (on a miss, the response's own) replaces the value the
  handler adds. No value is added when the store lookup fails, when
  encoding the metadata fails, when the downstream writes nothing, when the
  downstream fails on the buffered path, or when storing fails.

The model also covers the configuration check `Validate`, the defaults that
`Provision` applies, and the age calculations of age.go. The age functions
follow section 4.2.3 of RFC 7234 in Go's int64 nanosecond arithmetic.

Module layout:

- `GoInt`: int64 wrap-around and `time.Time.Sub` saturation.
- `Strconv`: `Atoi` (which is `ParseInt(s, 10, 64)`) and `Itoa`.
- `Age`: the age calculations of age.go.
- `Http`: the header map, and a `ResponseWriter` class whose state is a `Wire` value.
- `Store`: the DMap, a class over a map of entries.
- `CacheObject` and `Gob`: the libraries, passed in as functions.
- `CacheConfig`: the configuration.
- `HandlerSpec`: the handler as functions from the writer's state and the store's entries to an outcome.
- `Handler`: the `Cache` class. Its methods change the writer and the store step by step, as the Go code does, and are proved to reach exactly the outcome that `HandlerSpec` defines.
- `HandlerProperties`: the properties, proved about those outcome functions.

Where the code and its own doc comment disagree, the model follows the
code. The comment on `Cache` (httpcache.go:71) says that only GET and HEAD
are cached, but `ServeHTTP` also admits POST (httpcache.go:186). The cache
key is not injective, and the model states a collision (`KeyCollision`).

## Model

The functions of `HandlerSpec` are the handler's outcomes: `Forward`,
`RequestPhaseOf`, `Key`, `CallbackDecision`, `ReplayOutcome`, `Ttl`,
`RecordOutcome`, `MissOutcome` and `ServeOutcome`. Each is stood for by the
`Handler.Cache` method proved equal to it, and by the `HandlerProperties`
lemmas that characterise it. `Key` in particular is stood for by
`KeyCollision`.

| member | source | states |
|---|---|---|
| GoInt.Wrap64 | age.go:40 | a Duration product or sum is the mathematical value reduced modulo 2^64 into the int64 range, and equals it when that value fits |
| GoInt.Saturate64 | age.go:32 | the int64 nearest to a value: the value itself in range, otherwise the bound it passes |
| GoInt.Sub | age.go:32 | `t.Sub(u)` is the exact difference when it fits in an int64, MAX_INT64 above that range and MIN_INT64 below it |
| Strconv.ScanDigits | age.go:39 | the digit loop of Atoi: a scan without error has read only digits and returns the number they denote positionally; a digit string scans without error exactly when that number fits in a uint64, and is never a syntax error; a syntax error gives 0 and a range error 2^64-1 |
| Strconv.Atoi | age.go:39 | Atoi's value is always an int64; no error only for a well-formed numeral, returning its signed value; a well-formed numeral within int64 gives that value, one outside gives a range error; a range error gives the minimum exactly for a leading minus and the maximum otherwise; a syntax error gives 0 |
| Strconv.AllDigitsAppend | age.go:39 | a string followed by one character is a digit string exactly when the string is one and the character is a digit |
| Strconv.DecimalValueAppend | age.go:39 | appending a digit to a digit string makes its value ten times the old value plus the digit |
| Strconv.NatToDecimalDigits | age.go:60 | Itoa's digits are non-empty, all decimal, and canonical: they start with '0' only for 0 |
| Strconv.ScanDigitsOfDecimal | age.go:60 | scanning the decimal form of a uint64 gives it back without error |
| Strconv.Itoa | age.go:60 | `strconv.Itoa`: non-empty, a leading minus exactly for a negative number, then only decimal digits with no leading zero unless the number is 0 |
| Strconv.AtoiItoa | age.go:60 | round trip: Atoi reads back every int64 that Itoa renders, without error |
| Age.InitialAge | age.go:37-42 | an empty or unparseable Age contributes 0; otherwise it contributes the Atoi value times one second, wrapped to int64 |
| Age.ApparentAge | age.go:32-35 | the apparent age is non-negative, at least response_time - date_value, and equal to 0 or to that difference |
| Age.CorrectedInitialAge | age.go:31-51 | the result is non-negative and at least both the apparent age and the corrected age value, and it is one of the two |
| Age.CorrectedInitialAgeIsRfc | age.go:25-30 | when nothing overflows, the result equals RFC 7234's corrected_initial_age over unbounded integers |
| Age.InitialAgeOfNumeral | age.go:38-41 | any well-formed numeral (optional sign, leading zeros allowed) whose seconds fit in a Duration contributes exactly its value in seconds, negatives included |
| Age.InitialAgeLeadingZerosAndSign | age.go:38-41 | the Age values "007" and "+7" each contribute seven seconds |
| Age.DelayOnly | age.go:44-50 | with no Age contribution and a Date not before the response, only the response delay counts |
| Age.SaturatingCorrectedInitialAge | age.go:31-51 | corrected calculation with every overflow clamped: non-negative, and at least the apparent age |
| Age.SaturatingCorrectedInitialAgeIsRfc | age.go:25-30 | without overflow the clamped calculation is RFC 7234's |
| Age.SaturatingCorrectedInitialAgeMonotone | age.go:39-45 | with clamping, a larger Age value never gives a smaller corrected initial age |
| Age.InitialAgeWrapCounterexample | age.go:39-40 | as written, Age 1 gives one second, but Age 9223372037 gives a corrected initial age of 0; the clamped version gives the largest Duration |
| Age.CeilSeconds | age.go:60 | ceil(d / 1s): the least s with d <= s seconds |
| Age.CeilSecondsMonotone | age.go:60 | the ceiling does not decrease as the duration grows |
| Age.AgeToString | age.go:59-61 | `ageToString`: the rendered age parses back, without error, as the ceiling in whole seconds |
| Age.AgeToStringWholeSeconds | age.go:59-61 | a whole number k of seconds renders as k |
| Age.CurrentAgeDuration | age.go:56 | corrected_initial_age + resident_time in wrapping int64: congruent to the sum modulo 2^64, and exactly corrected_initial_age + (now - response_time) when nothing overflows |
| Age.CurrentAge | age.go:55-57 | the rendered current age parses as the ceiling of corrected_initial_age + (now - response_time), in wrapping int64 |
| Age.CurrentAgeWithoutOverflow | age.go:53-57 | without overflow, the current age is the exact ceiling, does not decrease as now advances, and is non-negative once now >= response_time and the corrected initial age is non-negative |
| Age.SaturatingCurrentAge | age.go:55-57 | corrected current age: the ceiling of the clamped sum |
| Age.SaturatingCurrentAgeMonotone | age.go:53-57 | the clamped current age never decreases as now advances, and is non-negative once now >= response_time and the corrected initial age is non-negative |
| Age.CurrentAgeWrapCounterexample | age.go:56 | as written, ages of MAX_INT64 give 9223372037 s, and one nanosecond later -9223372036 s; the clamped version stays at 9223372037 |
| Http.Get | httpcache.go:242 | `Header.Get` is the first value of the field, or "" when there is none |
| Http.Add | httpcache.go:189 | `Header.Add` appends one value to the field and changes no other field |
| Http.ResponseWriter.AddHeader | httpcache.go:189 | the writer's header gains the value, and nothing else changes |
| Http.ResponseWriter.SetHeader | httpcache.go:172 | `w.Header()[k] = v` replaces that one field |
| Http.ResponseWriter.SetHeaders | httpcache.go:171-173 | the header fields the downstream sets overlay the writer's header |
| Http.ResponseWriter.WriteHeader | httpcache.go:174 | only the first call sends the status and a snapshot of the header |
| Http.ResponseWriter.Write | httpcache.go:177 | sends an implicit 200 if no head was sent, then appends to the body |
| Store.Lookup | httpcache.go:210-217 | a fault gives exactly its error; otherwise the key's value is found iff the key is stored, and "not found" is returned iff it is absent |
| Store.Put | httpcache.go:326-328 | succeeds iff the store is not faulty; success adds exactly that key with that value and TTL and leaves every other entry as it was; failure changes nothing |
| Store.DMap.Get | httpcache.go:210 | `dmap.Get` returns the lookup of the current entries |
| Store.DMap.PutEx | httpcache.go:326 | `dmap.PutEx` leaves the entries and error given by `Put` |
| CacheConfig.Validate | httpcache.go:146-160 | reports, in order, a changed non-empty configuration, a negative size, or an unknown environment, each under exactly its condition, and otherwise nothing |
| CacheConfig.MaxSize | httpcache.go:102-106 | the size handed to the store is an int64: 512 MiB when the configured size is 0, the configured size otherwise, so positive for every non-negative configured size |
| CacheConfig.Env | httpcache.go:108-111 | the environment handed to the store is never empty: "local" when none is configured, the configured one otherwise, so local, lan or wan for every known configured environment |
| CacheConfig.ValidConfigDefaults | httpcache.go:102-111 | a configuration that validates provisions a positive size and an environment that is local, lan or wan |
| CacheConfig.ReloadSameConfig | httpcache.go:147 | an unchanged configuration never fails the first check, and the empty configuration always validates |
| Handler.Cache.WriteResponse | httpcache.go:162-179 | decoding failure returns the error with nothing written; otherwise the writer ends in the replay state: every stored field copied, the stored status written, then the remaining bytes |
| Handler.Cache.ForwardTo | httpcache.go:190 | passing the request straight to the downstream leaves the writer as the downstream leaves it, and returns its error |
| Handler.Cache.ShouldBuffer | httpcache.go:240-294 | the callback buffers exactly when the decision is to buffer, returns the filled-in object and the encoded metadata, and adds the Cache-Status detail of the first failing check |
| Handler.Cache.Record | httpcache.go:296-300 | running the downstream through the recorder streams a declined response and buffers an accepted one after its metadata |
| Handler.Cache.ServeAndCache | httpcache.go:226-334 | the miss path leaves the writer, the store and the error that the miss outcome defines |
| Handler.Cache.ServeHTTP | httpcache.go:181-224 | a request leaves the writer, the store and the error that the serve outcome defines |
| HandlerProperties.MethodFilter | httpcache.go:183-191 | a request bypasses with the METHOD detail iff its method is not GET, HEAD or POST |
| HandlerProperties.BypassIgnoresStore | httpcache.go:183-198 | a bypassed request leaves the store unchanged, returns the downstream's error, and gives the same response whatever the store holds or fails with |
| HandlerProperties.RequestDirectiveBypass | httpcache.go:193-198 | a request with a cacheable method bypasses with the DIRECTIVE detail iff its Cache-Control fails to parse or has no-cache or no-store |
| HandlerProperties.LookupFailure | httpcache.go:210-217 | a failing lookup returns the store's error, leaves the writer untouched, and does not depend on the downstream |
| HandlerProperties.OverlayValues | httpcache.go:171-173 | a stored field replaces the writer's field of the same name; other fields are kept |
| HandlerProperties.ReplayEncoded | httpcache.go:162-179 | replaying an encoded header and status followed by a body sends that status with the overlaid header, and the body is exactly the bytes after the metadata |
| HandlerProperties.HitReplay | httpcache.go:219-223 | a hit sends the stored status and body and leaves the store unchanged; Cache-Status gains "hit" unless the stored header has its own Cache-Status, which then replaces it; the downstream never runs |
| HandlerProperties.CorruptHit | httpcache.go:165-168 | a stored entry that does not decode returns the decode error with nothing sent |
| HandlerProperties.CallbackChecks | httpcache.go:241-294 | the first failing check decides, whatever the later checks would say: a malformed field names that field; a rejection by the storability predicate lists its reasons; a failed encoding streams with no detail; the response is buffered iff every check passes |
| HandlerProperties.CallbackBuffer | httpcache.go:248-287 | an accepted response's object carries its directives, header, status and the parsed times of the fields present, and the buffer starts with the encoded header and status |
| HandlerProperties.TtlMeaning | httpcache.go:312-318 | a zero expiration gives exactly `default_ttl` seconds when that fits; otherwise the TTL is positive iff the expiration lies after now, and exact when it fits |
| HandlerProperties.NothingWritten | httpcache.go:302-308 | a downstream that writes nothing gives errUncacheable (or its own error), nothing sent and nothing stored |
| HandlerProperties.DeclinedStreams | httpcache.go:240-308 | a declined response reaches the client with its status and body and the detail, nothing is stored, and errUncacheable is returned |
| HandlerProperties.StoreDecision | httpcache.go:310-334 | a non-positive TTL serves "uri-miss" without storing; a positive one stores the whole buffer with that TTL and serves "stored"; a failing put returns its error, and nothing is sent |
| HandlerProperties.RecordedDecodes | httpcache.go:279-287 | whatever the recorder has buffered, when non-empty, decodes |
| HandlerProperties.MissKeepsDecodable | httpcache.go:306-334 | the miss path changes the store, if at all, only at the key, to a decodable entry with a positive TTL, and never returns a decode error |
| HandlerProperties.ServeKeepsDecodable | httpcache.go:181-224 | invariant: if every stored entry decodes, one request keeps that true, changes at most its own key, and never returns a decode error |
| HandlerProperties.KeyCollision | httpcache.go:203 | two requests with different hosts and URIs can share a key |
| HandlerProperties.StoreThenHit | httpcache_test.go:26-34 | the first request is served "stored" with its status and body; a later request with the same key is served "hit" with the same status, the same body and every other header field, and the store is unchanged |

## Left out

- Olric itself is not modelled: its startup in `Provision`, the cluster, its concurrency, and the expiry of entries once their TTL passes. The store is a map whose get and put may fail as the environment chooses.
- `Provision` is modelled only through the two defaults it computes. The globals `db`, `dmap` and `previousConfig` are not modelled state; the previous configuration is a parameter of `Validate`.
- `UnmarshalCaddyfile`, `parseCaddyfile`, `init`, `CaddyModule` and the logger are not modelled. They are registration, configuration parsing and I/O.
- cacheobject (`ParseRequestCacheControl`, `ParseResponseCacheControl`, `CachableObject`, `ExpirationObject`) and `http.ParseTime` are functions the caller supplies. Their RFC logic is not part of this model.
- gob is a pair of functions. The only assumption made about it is that its messages are non-empty and self-delimiting. When encoding fails, bytes it may already have written to the buffer are not modelled; they cannot matter, because a declined response is never stored.
- The downstream handler is its effect: the header fields it sets, at most one status and body, and its error. A downstream that writes in several pieces is the same as one that writes their concatenation.
- `caddyhttp.ResponseRecorder` is its observable behaviour: the callback runs when the head is written, and `Buffered()` is "not streaming". Content-Type sniffing is not modelled.
- `bufPool` reuse is not modelled; each request starts with an empty buffer.
- `obj.RespHeaders` aliasing the live header map is not modelled. The object holds the header as it was when the callback ran, and nothing reads it after a later change.
- Header name canonicalisation is not modelled. Every name the handler uses is already canonical.
- `time.Now()` is the parameter `now`. Instants, parsed header times included, are integer nanoseconds, and the zero `time.Time` is `None`.
- Age.CeilSeconds: `math.Ceil(age.Seconds())` goes through float64. The model uses the exact integer ceiling, so float rounding is not captured for durations beyond 2^53 ns. The final `int(...)` conversion is taken to be exact.
- The age functions are not called from the serve path; the handler neither rewrites an Age header nor honours Vary. The model follows this.
- WriteResponse: writes to the client are assumed to succeed. The error that `io.Copy` returns when the client connection fails (httpcache.go:177-178) is not modelled, and neither is its return on the hit and miss paths. `ReplayOutcome` reports only the decode error.
- HandlerProperties.TtlMeaning: `time.Duration(DefaultTTL) * time.Second` wraps for a `default_ttl` beyond 9223372036 seconds. The lemma describes only the range where it fits; the wrapped result is still what the model computes.

## Findings

| source | as written | input that shows it | evidently intended | confidence | as-written member | corrected member |
|---|---|---|---|---|---|---|
| age.go:39-40 | `time.Duration(iAgeValue) * time.Second` wraps around in int64 | `Age: 9223372037` with response, Date and request at the same instant: the initial age wraps to a negative value and the corrected initial age is 0, whereas `Age: 1` gives 1 s | an overflowing age is clamped to the largest representable value (section 1.2.1 of RFC 7234), so a larger Age never gives a smaller age | not executed | Age.InitialAgeWrapCounterexample | Age.SaturatingCorrectedInitialAgeMonotone |
| age.go:56 | `correctedInitialAge + now.Sub(responseTime)` wraps around in int64 | a Date 2^63 ns before the response makes the corrected initial age MAX_INT64; one nanosecond after the response the current age renders as -9223372036 | the current age never decreases and is never negative after the response (section 4.2.3 of RFC 7234) | not executed | Age.CurrentAgeWrapCounterexample | Age.SaturatingCurrentAgeMonotone |
