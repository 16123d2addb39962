/**
 The distributed map the cache stores its entries in (an Olric DMap), as
 an abstract map from key to value with a time to live. Whether the
 cluster answers a call with a failure is the environment's choice: the
 `Faults` it is in.
 */
module Store {
  import opened Wrappers
  import opened Http

  /** A stored value and the time to live it was put with, in nanoseconds. */
  datatype Entry = Entry(value: seq<byte>, ttl: int)

  type Entries = map<string, Entry>

  /** The failure, if any, the cluster answers a Get or a PutEx with. */
  datatype Faults = Faults(get: Option<string>, put: Option<string>)

  /** The three outcomes of `dmap.Get`: a value, `olric.ErrKeyNotFound`, or another error. */
  datatype GetResult = Found(value: seq<byte>) | KeyNotFound | GetFailed(reason: string)

  function Lookup(entries: Entries, faults: Faults, key: string): (r: GetResult)
    ensures faults.get.Some? ==> r == GetFailed(faults.get.value)
    ensures r.Found? <==> faults.get.None? && key in entries
    ensures r.Found? ==> r.value == entries[key].value
    ensures r.KeyNotFound? <==> faults.get.None? && key !in entries
  {
    if faults.get.Some? then GetFailed(faults.get.value)
    else if key in entries then Found(entries[key].value)
    else KeyNotFound
  }

  /** The result of `dmap.PutEx`: the new entries and the error, if any. */
  datatype PutResult = PutResult(entries: Entries, err: Option<string>)

  function Put(entries: Entries, faults: Faults, key: string, value: seq<byte>, ttl: int): (r: PutResult)
    ensures r.err.None? <==> faults.put.None?
    ensures r.err.None? ==> r.entries.Keys == entries.Keys + {key} && r.entries[key] == Entry(value, ttl)
    ensures r.err.None? ==> forall k :: k in entries && k != key ==> r.entries[k] == entries[k]
    ensures r.err.Some? ==> r.entries == entries
  {
    if faults.put.Some? then PutResult(entries, faults.put) else PutResult(entries[key := Entry(value, ttl)], None)
  }

  class DMap {
    var entries: Entries
    const faults: Faults

    constructor (entries: Entries, faults: Faults)
      ensures this.entries == entries && this.faults == faults
    {
      this.entries := entries;
      this.faults := faults;
    }

    /** `dmap.Get(key)` */
    method Get(key: string) returns (r: GetResult)
      ensures r == Lookup(entries, faults, key)
    {
      if faults.get.Some? {
        r := GetFailed(faults.get.value);
      } else if key in entries {
        r := Found(entries[key].value);
      } else {
        r := KeyNotFound;
      }
    }

    /** `dmap.PutEx(key, value, ttl)` */
    method PutEx(key: string, value: seq<byte>, ttl: int) returns (err: Option<string>)
      modifies this
      ensures PutResult(entries, err) == Put(old(entries), faults, key, value, ttl)
    {
      err := faults.put;
      if err.None? {
        entries := entries[key := Entry(value, ttl)];
      }
    }
  }
}
