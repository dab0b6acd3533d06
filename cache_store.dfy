/**
 * The Couchbase key/value store behind the cache backend
 * (django_couchbase/memcached.py): every primitive the backend calls, as a
 * step function on the stored entries, and a `Store` object that applies
 * them. Each call consumes one answer of a fault oracle, so any primitive can
 * also fail with NotFoundError, KeyExistsError or another error.
 */
module CacheStore {
  import opened Wrappers
  import opened Values

  /** What the oracle makes the n-th store call do. */
  datatype Fault = Healthy | FailNotFound | FailKeyExists | FailOther

  /** The answer of a store primitive: its result, or the exception it raises. */
  datatype Reply<T> = Done(v: T) | NotFoundErr | KeyExistsErr | OtherErr

  /** A stored value and its time to live. */
  datatype Entry = Entry(value: Value, ttl: int)

  type Data = map<string, Entry>

  datatype Step<T> = Step(reply: Reply<T>, data: Data)

  /** The exception an injected fault raises. */
  function Injected<T>(f: Fault): (r: Reply<T>)
    ensures !r.Done?
    ensures f == FailNotFound <==> r == NotFoundErr
    ensures f == FailKeyExists <==> r == KeyExistsErr
  {
    match f
    case FailNotFound => NotFoundErr
    case FailKeyExists => KeyExistsErr
    case _ => OtherErr
  }

  /** `get`: the stored value, NotFoundError for a missing key. */
  function GetStep(d: Data, f: Fault, k: string): (s: Step<Value>)
    ensures s.data == d
    ensures s.reply.Done? <==> f == Healthy && k in d
    ensures s.reply.Done? ==> s.reply.v == d[k].value
  {
    if f != Healthy then Step(Injected(f), d)
    else if k in d then Step(Done(d[k].value), d)
    else Step(NotFoundErr, d)
  }

  /** `set`: store unconditionally. */
  function SetStep(d: Data, f: Fault, k: string, v: Value, ttl: int): (s: Step<()>)
    ensures s.reply.Done? <==> f == Healthy
    ensures s.reply.Done? ==> s.data == d[k := Entry(v, ttl)]
    ensures !s.reply.Done? ==> s.data == d
  {
    if f != Healthy then Step(Injected(f), d) else Step(Done(()), d[k := Entry(v, ttl)])
  }

  /** `add`: store only a missing key; KeyExistsError otherwise. */
  function AddStep(d: Data, f: Fault, k: string, v: Value, ttl: int): (s: Step<()>)
    ensures s.reply.Done? <==> f == Healthy && k !in d
    ensures f == Healthy && k in d ==> s.reply == KeyExistsErr
    ensures s.reply.Done? ==> s.data == d[k := Entry(v, ttl)]
    ensures !s.reply.Done? ==> s.data == d
  {
    if f != Healthy then Step(Injected(f), d)
    else if k in d then Step(KeyExistsErr, d)
    else Step(Done(()), d[k := Entry(v, ttl)])
  }

  /** `delete`: remove a present key; NotFoundError otherwise. */
  function DeleteStep(d: Data, f: Fault, k: string): (s: Step<()>)
    ensures s.reply.Done? <==> f == Healthy && k in d
    ensures f == Healthy && k !in d ==> s.reply == NotFoundErr
    ensures s.reply.Done? ==> s.data == d - {k}
    ensures !s.reply.Done? ==> s.data == d
  {
    if f != Healthy then Step(Injected(f), d)
    else if k in d then Step(Done(()), d - {k})
    else Step(NotFoundErr, d)
  }

  /** The counter after `incr` (`up`) or `decr` by `delta`; memcached floors a decrement at zero. */
  function Counted(n: int, delta: int, up: bool): (m: int)
    ensures up ==> m == n + delta
    ensures !up ==> m >= 0 && (n - delta >= 0 ==> m == n - delta)
  {
    if up then n + delta else if n - delta < 0 then 0 else n - delta
  }

  /** `incr`/`decr`: NotFoundError for a missing key, an error for a value that is not a counter. */
  function CounterStep(d: Data, f: Fault, k: string, delta: int, up: bool): (s: Step<int>)
    ensures s.reply.Done? <==> f == Healthy && k in d && d[k].value.VInt?
    ensures f == Healthy && k !in d ==> s.reply == NotFoundErr
    ensures s.reply.Done? ==>
              s.reply.v == Counted(d[k].value.i, delta, up) && s.data == d[k := Entry(VInt(s.reply.v), d[k].ttl)]
    ensures !s.reply.Done? ==> s.data == d
  {
    if f != Healthy then Step(Injected(f), d)
    else if k !in d then Step(NotFoundErr, d)
    else if !d[k].value.VInt? then Step(OtherErr, d)
    else
      var n := Counted(d[k].value.i, delta, up);
      Step(Done(n), d[k := Entry(VInt(n), d[k].ttl)])
  }

  /**
   * `get_multi` with a ttl: the per-key results (None: that key failed), the
   * reply (NotFoundError when some key is missing) and the entries after the
   * hits had their ttl refreshed.
   */
  datatype Multi = Multi(reply: Reply<()>, results: map<string, Option<Value>>, data: Data)

  function GetMultiStep(d: Data, f: Fault, keys: seq<string>, ttl: int): (m: Multi)
    ensures f == Healthy ==> m.results.Keys == set i | 0 <= i < |keys| :: keys[i]
    ensures f != Healthy ==> m.results == map[] && m.data == d && !m.reply.Done?
    ensures forall k :: k in m.results && m.results[k].Some? ==> k in d && m.results[k].value == d[k].value
    ensures forall k :: k in m.results && k in d ==> m.results[k] == Some(d[k].value)
    ensures m.reply.Done? <==> f == Healthy && forall i :: 0 <= i < |keys| ==> keys[i] in d
    ensures f == Healthy && !m.reply.Done? ==> m.reply == NotFoundErr
    ensures m.data.Keys == d.Keys
    ensures forall k :: k in d ==> m.data[k].value == d[k].value
    ensures forall k :: k in d ==> m.data[k].ttl == if f == Healthy && k in m.results then ttl else d[k].ttl
  {
    if f != Healthy then Multi(Injected(f), map[], d)
    else
      var asked := set i | 0 <= i < |keys| :: keys[i];
      var results := map k | k in asked :: if k in d then Some(d[k].value) else None;
      var touched := map k | k in d :: if k in asked then Entry(d[k].value, ttl) else d[k];
      Multi(if asked <= d.Keys then Done(()) else NotFoundErr, results, touched)
  }

  /** `set_multi`: store every pair. */
  function SetMultiStep(d: Data, f: Fault, m: map<string, Value>, ttl: int): (s: Step<()>)
    ensures s.reply.Done? <==> f == Healthy
    ensures s.reply.Done? ==> s.data.Keys == d.Keys + m.Keys &&
                              (forall k :: k in m ==> s.data[k] == Entry(m[k], ttl)) &&
                              (forall k :: k in d && k !in m ==> s.data[k] == d[k])
    ensures !s.reply.Done? ==> s.data == d
  {
    if f != Healthy then Step(Injected(f), d)
    else Step(Done(()), map k | k in d.Keys + m.Keys :: if k in m then Entry(m[k], ttl) else d[k])
  }

  /** `delete_multi`: remove the present keys; NotFoundError when some key was missing. */
  function DeleteMultiStep(d: Data, f: Fault, keys: set<string>): (s: Step<()>)
    ensures s.reply.Done? <==> f == Healthy && keys <= d.Keys
    ensures f == Healthy ==> s.data == d - keys
    ensures f != Healthy ==> s.data == d
  {
    if f != Healthy then Step(Injected(f), d)
    else Step(if keys <= d.Keys then Done(()) else NotFoundErr, d - keys)
  }

  /** The store: its entries, the number of calls made so far, and the fault oracle. */
  class Store {
    var data: Data
    var calls: nat
    const faults: nat -> Fault

    constructor (data: Data, faults: nat -> Fault)
      ensures this.data == data && calls == 0 && this.faults == faults
    {
      this.data := data;
      calls := 0;
      this.faults := faults;
    }

    method Get(k: string) returns (r: Reply<Value>)
      modifies this
      ensures var s := GetStep(old(data), faults(old(calls)), k);
              r == s.reply && data == s.data && calls == old(calls) + 1
    {
      var s := GetStep(data, faults(calls), k);
      r, data, calls := s.reply, s.data, calls + 1;
    }

    method Set(k: string, v: Value, ttl: int) returns (r: Reply<()>)
      modifies this
      ensures var s := SetStep(old(data), faults(old(calls)), k, v, ttl);
              r == s.reply && data == s.data && calls == old(calls) + 1
    {
      var s := SetStep(data, faults(calls), k, v, ttl);
      r, data, calls := s.reply, s.data, calls + 1;
    }

    method Add(k: string, v: Value, ttl: int) returns (r: Reply<()>)
      modifies this
      ensures var s := AddStep(old(data), faults(old(calls)), k, v, ttl);
              r == s.reply && data == s.data && calls == old(calls) + 1
    {
      var s := AddStep(data, faults(calls), k, v, ttl);
      r, data, calls := s.reply, s.data, calls + 1;
    }

    method Delete(k: string) returns (r: Reply<()>)
      modifies this
      ensures var s := DeleteStep(old(data), faults(old(calls)), k);
              r == s.reply && data == s.data && calls == old(calls) + 1
    {
      var s := DeleteStep(data, faults(calls), k);
      r, data, calls := s.reply, s.data, calls + 1;
    }

    method Counter(k: string, delta: int, up: bool) returns (r: Reply<int>)
      modifies this
      ensures var s := CounterStep(old(data), faults(old(calls)), k, delta, up);
              r == s.reply && data == s.data && calls == old(calls) + 1
    {
      var s := CounterStep(data, faults(calls), k, delta, up);
      r, data, calls := s.reply, s.data, calls + 1;
    }

    method GetMulti(keys: seq<string>, ttl: int) returns (r: Reply<()>, results: map<string, Option<Value>>)
      modifies this
      ensures var m := GetMultiStep(old(data), faults(old(calls)), keys, ttl);
              r == m.reply && results == m.results && data == m.data && calls == old(calls) + 1
    {
      var m := GetMultiStep(data, faults(calls), keys, ttl);
      r, results, data, calls := m.reply, m.results, m.data, calls + 1;
    }

    method SetMulti(m: map<string, Value>, ttl: int) returns (r: Reply<()>)
      modifies this
      ensures var s := SetMultiStep(old(data), faults(old(calls)), m, ttl);
              r == s.reply && data == s.data && calls == old(calls) + 1
    {
      var s := SetMultiStep(data, faults(calls), m, ttl);
      r, data, calls := s.reply, s.data, calls + 1;
    }

    method DeleteMulti(keys: set<string>) returns (r: Reply<()>)
      modifies this
      ensures var s := DeleteMultiStep(old(data), faults(old(calls)), keys);
              r == s.reply && data == s.data && calls == old(calls) + 1
    {
      var s := DeleteMultiStep(data, faults(calls), keys);
      r, data, calls := s.reply, s.data, calls + 1;
    }
  }
}
