/**
 The parts of Go's net/http the handler uses: the header map of a
 response, and what a ResponseWriter has been told so far.
 */
module Http {
  import opened Wrappers

  newtype byte = x: int | 0 <= x < 256

  /** `http.Header`: field name to its values. All names this model looks up
      or adds are already in canonical form, so no canonicalisation is shown. */
  type Header = map<string, seq<string>>

  function Values(h: Header, key: string): seq<string> {
    if key in h then h[key] else []
  }

  /** `h.Get(key)`: the first value, or "" when there is none. */
  function Get(h: Header, key: string): (v: string)
    ensures |Values(h, key)| > 0 ==> v == Values(h, key)[0]
    ensures |Values(h, key)| == 0 ==> v == ""
  {
    if key in h && |h[key]| > 0 then h[key][0] else ""
  }

  /** `h.Add(key, value)`: appends value to the values of key. */
  function Add(h: Header, key: string, value: string): (r: Header)
    ensures r.Keys == h.Keys + {key}
    ensures Values(r, key) == Values(h, key) + [value]
    ensures forall k :: k in h && k != key ==> k in r && r[k] == h[k]
  {
    h[key := Values(h, key) + [value]]
  }

  /** The status line and the header as the client received them. */
  datatype Head = Head(status: int, header: Header)

  /**
   The state of a ResponseWriter: its header map, the head once WriteHeader
   has sent it (later header changes do not reach the client), and the body
   written so far.
   */
  datatype Wire = Wire(header: Header, sent: Option<Head>, body: seq<byte>) {

    function AddHeader(key: string, value: string): Wire {
      this.(header := Add(header, key, value))
    }

    /** `w.Header()[key] = values` for every key of h. */
    function SetHeaders(h: Header): Wire {
      this.(header := header + h)
    }

    /** `WriteHeader(status)`: the first call sends the head, later calls are ignored. */
    function WriteHeader(status: int): Wire {
      if sent.None? then this.(sent := Some(Head(status, header))) else this
    }

    /** `Write(data)`: writes an implicit 200 head first if none was sent. */
    function Write(data: seq<byte>): Wire {
      var w := WriteHeader(200);
      w.(body := w.body + data)
    }
  }

  class ResponseWriter {
    var header: Header
    var sent: Option<Head>
    var body: seq<byte>

    function State(): Wire
      reads this
    {
      Wire(header, sent, body)
    }

    constructor (header: Header)
      ensures State() == Wire(header, None, [])
    {
      this.header := header;
      sent := None;
      body := [];
    }

    /** `w.Header().Add(key, value)` */
    method AddHeader(key: string, value: string)
      modifies this
      ensures State() == old(State()).AddHeader(key, value)
    {
      header := Add(header, key, value);
    }

    /** `w.Header()[key] = values` */
    method SetHeader(key: string, values: seq<string>)
      modifies this
      ensures State() == old(State()).(header := old(header)[key := values])
    {
      header := header[key := values];
    }

    /** The header fields a downstream handler sets, in one step. */
    method SetHeaders(h: Header)
      modifies this
      ensures State() == old(State()).SetHeaders(h)
    {
      header := header + h;
    }

    method WriteHeader(status: int)
      modifies this
      ensures State() == old(State()).WriteHeader(status)
    {
      if sent.None? {
        sent := Some(Head(status, header));
      }
    }

    method Write(data: seq<byte>)
      modifies this
      ensures State() == old(State()).Write(data)
    {
      WriteHeader(200);
      body := body + data;
    }
  }
}
