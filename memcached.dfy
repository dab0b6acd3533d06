/**
 * The cache backend `CouchbaseCache` (django_couchbase/memcached.py): the
 * lazily created client, and the facade operations with the fixed rule each
 * one follows on success, NotFoundError, KeyExistsError and any other error.
 *
 * `make_key` and `_get_memcache_timeout` are inherited from Django and stay
 * uninterpreted: they are function-valued constants of the backend.
 */
module Memcached {
  import opened Wrappers
  import opened Values
  import opened CacheStore

  // ------------------------------------------------------------ the client

  datatype Format = FmtJson | FmtPickle | FmtBytes | FmtUtf8 | FmtAuto

  /** The `formatMap` lookup; an unknown format name falls back to PICKLE. */
  function FormatOf(name: string): (f: Format)
    ensures name == "JSON" <==> f == FmtJson
    ensures name == "BYTES" <==> f == FmtBytes
    ensures name == "UTF8" <==> f == FmtUtf8
    ensures name == "AUTO" <==> f == FmtAuto
    ensures f == FmtPickle <==> name !in {"JSON", "BYTES", "UTF8", "AUTO"}
  {
    if name == "JSON" then FmtJson
    else if name == "BYTES" then FmtBytes
    else if name == "UTF8" then FmtUtf8
    else if name == "AUTO" then FmtAuto
    else FmtPickle
  }

  /** `options.get(key, fallback)`. */
  function Setting(options: map<string, string>, key: string, fallback: string): (v: string)
    ensures key in options ==> v == options[key]
    ensures key !in options ==> v == fallback
  {
    if key in options then options[key] else fallback
  }

  /** Python's `str.find`: the first index of `c`, or -1. */
  function Find(s: string, c: char): (i: int)
    ensures -1 <= i < |s|
    ensures i == -1 <==> c !in s
    ensures i >= 0 ==> s[i] == c && c !in s[..i]
  {
    if s == [] then -1
    else if s[0] == c then 0
    else
      var j := Find(s[1..], c);
      assert s[1..][..if j < 0 then 0 else j] == s[1..if j < 0 then 1 else j + 1];
      if j == -1 then -1 else j + 1
  }

  /**
   * The host/port split as written: `s[:idx]` and `s[idx+1:]` with
   * `idx = s.find(':')`, so a server without a colon loses its last character
   * as host and becomes its own port.
   */
  function SplitAsWritten(s: string): (hp: (string, string))
    ensures ':' in s ==> hp.0 + [':'] + hp.1 == s && ':' !in hp.0
    ensures ':' !in s ==> hp.1 == s && hp.0 == (if s == [] then [] else s[..|s| - 1])
  {
    var idx := Find(s, ':');
    if idx >= 0 then
      assert s == s[..idx] + [':'] + s[idx + 1..];
      (s[..idx], s[idx + 1..])
    else
      (if |s| > 0 then s[..|s| - 1] else [], s)
  }

  /** A server without a port: the host comes out truncated and the port is the whole string. */
  lemma SplitWithoutColon()
    ensures SplitAsWritten("localhost") == ("localhos", "localhost")
  {
    assert ':' !in "localhost";
    assert "localhost"[..8] == "localhos";
  }

  const DefaultPort := "8091"

  /** The split the code evidently intends: the text around the first colon, else the default port. */
  function SplitServer(s: string): (hp: (string, string))
    ensures ':' in s ==> hp.0 + [':'] + hp.1 == s && ':' !in hp.0
    ensures ':' !in s ==> hp == (s, DefaultPort)
  {
    if ':' in s then SplitAsWritten(s) else (s, DefaultPort)
  }

  lemma SplitServerAgreesWithColon(s: string)
    requires ':' in s
    ensures SplitServer(s) == SplitAsWritten(s)
  {
  }

  /** The arguments `_cache` passes to `connect`, and the client's default format. */
  datatype Connection = Connection(bucket: string, host: string, password: string, port: string, format: Format)

  /**
   * The client `_cache` creates, with the split as written; None when there is
   * no server (`raise Exception('need host')`).
   */
  function ConnectionFor(server: seq<string>, options: map<string, string>): (c: Option<Connection>)
    ensures c.Some? <==> |server| > 0
    ensures c.Some? && ':' in server[0] ==> (c.value.host, c.value.port) == SplitServer(server[0])
    ensures c.Some? ==>
              (c.value.host, c.value.port) == SplitAsWritten(server[0]) &&
              c.value.bucket == Setting(options, "bucket", "default") &&
              c.value.password == Setting(options, "password", "") &&
              c.value.format == FormatOf(Setting(options, "format", ""))
  {
    if |server| == 0 then None
    else
      var hp := SplitAsWritten(server[0]);
      Some(Connection(Setting(options, "bucket", "default"), hp.0, Setting(options, "password", ""), hp.1,
                      FormatOf(Setting(options, "format", ""))))
  }

  /** The backend's `_client`, `_bucket` and `_couchbase_cli`. */
  datatype Handles = Handles(client: Option<Connection>, bucket: string, cli: string)

  /** A server without a port reaches `connect` as host "localhos", port "localhost". */
  lemma ConnectWithoutPort(options: map<string, string>)
    ensures var c := ConnectionFor(["localhost"], options);
            c.Some? && c.value.host == "localhos" && c.value.port == "localhost"
  {
    SplitWithoutColon();
  }

  /** The handles after an access to `_cache`: created once, then kept. */
  function Connect(h: Handles, server: seq<string>, options: map<string, string>): (h': Handles)
    ensures h.client.Some? ==> h' == h
    ensures h.client.None? && |server| == 0 ==> h' == h
    ensures h.client.None? && |server| > 0 ==>
              h' == Handles(ConnectionFor(server, options), Setting(options, "bucket", "default"),
                            Setting(options, "couchbase-cli", ""))
  {
    if h.client.Some? || |server| == 0 then h
    else Handles(ConnectionFor(server, options), Setting(options, "bucket", "default"), Setting(options, "couchbase-cli", ""))
  }

  /** The client is created at most once: a second access to `_cache` changes nothing. */
  lemma ConnectOnce(h: Handles, server: seq<string>, options: map<string, string>)
    ensures var h' := Connect(h, server, options);
            Connect(h', server, options) == h' && (h'.client.Some? <==> h.client.Some? || |server| > 0)
  {
  }

  // ------------------------------------------------------------ operations

  /** The exception a store call lets escape. */
  datatype Raised = NeedHost | StoreNotFound | StoreKeyExists | StoreOther

  /** What a facade method returns: None, False, the store's result, a counter, or an escaping exception. */
  datatype Ret = RNone | RFalse | RDone | RCounter(n: int) | RRaise(error: Raised)

  function RaisedBy<T>(r: Reply<T>): Raised
  {
    match r
    case NotFoundErr => StoreNotFound
    case KeyExistsErr => StoreKeyExists
    case _ => StoreOther
  }

  /** A facade call: its return value, the entries afterwards, and how many store calls it made. */
  datatype Outcome = Outcome(ret: Ret, data: Data, calls: nat)

  /** `set`. `f0` and `f1` answer its first and second store call. */
  function SetOutcome(reachable: bool, d: Data, f0: Fault, f1: Fault, k: string, v: Value, t: int): (o: Outcome)
    ensures !reachable ==> o == Outcome(RRaise(NeedHost), d, 0)
    ensures reachable && t < 0 ==> !o.ret.RRaise? && o.calls == 1 && (o.data == d - {k} || o.data == d)
    ensures reachable && t < 0 && f0 == Healthy ==> o.data == d - {k} && (k in d ==> o.ret == RDone) && (k !in d ==> o.ret == RNone)
    ensures reachable && t >= 0 && f0 == Healthy ==> o == Outcome(RDone, d[k := Entry(v, t)], 1)
    ensures reachable && f0 == FailKeyExists ==> o == Outcome(RNone, d, 1)
    ensures reachable && f0 == FailOther ==> o == Outcome(RFalse, d, 1)
    ensures reachable && f0 == FailNotFound && t < 0 ==> o == Outcome(RNone, d, 1)
    ensures reachable && f0 == FailNotFound && t >= 0 ==>
              var a := AddStep(d, f1, k, v, t);
              o.calls == 2 && o.data == a.data && (o.ret == RDone <==> a.reply.Done?) && (o.ret != RDone ==> o.ret.RRaise?)
    ensures o.ret.RRaise? <==> !reachable || (f0 == FailNotFound && t >= 0 && !AddStep(d, f1, k, v, t).reply.Done?)
  {
    if !reachable then Outcome(RRaise(NeedHost), d, 0)
    else if t < 0 then
      var s := DeleteStep(d, f0, k);
      Outcome(match s.reply case Done(_) => RDone case OtherErr => RFalse case _ => RNone, s.data, 1)
    else
      var s := SetStep(d, f0, k, v, t);
      match s.reply
      case Done(_) => Outcome(RDone, s.data, 1)
      case KeyExistsErr => Outcome(RNone, s.data, 1)
      case OtherErr => Outcome(RFalse, s.data, 1)
      case NotFoundErr =>
        var a := AddStep(s.data, f1, k, v, t);
        Outcome(if a.reply.Done? then RDone else RRaise(RaisedBy(a.reply)), a.data, 2)
  }

  /** `add`: nothing is attempted for a negative timeout; every failure returns False and changes nothing. */
  function AddOutcome(reachable: bool, d: Data, f0: Fault, k: string, v: Value, t: int): (o: Outcome)
    ensures t < 0 ==> o == Outcome(RFalse, d, 0)
    ensures o.ret == RDone <==> t >= 0 && reachable && f0 == Healthy && k !in d
    ensures o.ret == RDone ==> o.data == d[k := Entry(v, t)]
    ensures o.ret != RDone ==> o.ret == RFalse && o.data == d
    ensures o.calls == if t >= 0 && reachable then 1 else 0
  {
    if t < 0 || !reachable then Outcome(RFalse, d, 0)
    else
      var s := AddStep(d, f0, k, v, t);
      Outcome(if s.reply.Done? then RDone else RFalse, s.data, 1)
  }

  /** `delete`: the store's result, or False on any error. */
  function DeleteOutcome(reachable: bool, d: Data, f0: Fault, k: string): (o: Outcome)
    ensures o.ret == RDone <==> reachable && f0 == Healthy && k in d
    ensures o.ret != RDone ==> o.ret == RFalse && o.data == d
    ensures o.ret == RDone ==> o.data == d - {k}
    ensures o.calls == if reachable then 1 else 0
  {
    if !reachable then Outcome(RFalse, d, 0)
    else
      var s := DeleteStep(d, f0, k);
      Outcome(if s.reply.Done? then RDone else RFalse, s.data, 1)
  }

  /** `incr` (`up`) and `decr`: a missing key is created by `add` with `+delta`, other errors return False. */
  function CounterOutcome(reachable: bool, d: Data, f0: Fault, f1: Fault, k: string, delta: int, up: bool, seedTtl: int)
    : (o: Outcome)
    ensures !reachable ==> o == Outcome(RFalse, d, 0)
    ensures reachable && f0 == Healthy && k in d && d[k].value.VInt? ==>
              var n := Counted(d[k].value.i, delta, up);
              o == Outcome(RCounter(n), d[k := Entry(VInt(n), d[k].ttl)], 1)
    ensures reachable && f0 == Healthy && k !in d ==>
              o.calls == 2 && o.data == AddStep(d, f1, k, VInt(delta), seedTtl).data &&
              (f1 == Healthy ==> o == Outcome(RDone, d[k := Entry(VInt(delta), seedTtl)], 2))
    ensures reachable && f0 == FailNotFound ==>
              o.calls == 2 && o.data == AddStep(d, f1, k, VInt(delta), seedTtl).data
    ensures reachable && (f0 == FailKeyExists || f0 == FailOther || (f0 == Healthy && k in d && !d[k].value.VInt?)) ==>
              o == Outcome(RFalse, d, 1)
    ensures o.ret.RRaise? ==> o.calls == 2 && o.data == d
    ensures o.ret.RRaise? <==>
              reachable && (f0 == FailNotFound || (f0 == Healthy && k !in d)) &&
              !AddStep(d, f1, k, VInt(delta), seedTtl).reply.Done?
    ensures o.ret == RDone <==>
              reachable && (f0 == FailNotFound || (f0 == Healthy && k !in d)) &&
              AddStep(d, f1, k, VInt(delta), seedTtl).reply.Done?
  {
    if !reachable then Outcome(RFalse, d, 0)
    else
      var s := CounterStep(d, f0, k, delta, up);
      match s.reply
      case Done(n) => Outcome(RCounter(n), s.data, 1)
      case NotFoundErr =>
        var a := AddStep(s.data, f1, k, VInt(delta), seedTtl);
        Outcome(if a.reply.Done? then RDone else RRaise(RaisedBy(a.reply)), a.data, 2)
      case _ => Outcome(RFalse, s.data, 1)
  }

  /** `get`: the stored value, or the caller's default whenever anything raises. */
  function GetResult(reachable: bool, d: Data, f0: Fault, k: string, default: Value): (v: Value)
    ensures reachable && f0 == Healthy && k in d ==> v == d[k].value
    ensures !(reachable && f0 == Healthy && k in d) ==> v == default
  {
    if reachable then
      var s := GetStep(d, f0, k);
      if s.reply.Done? then s.reply.v else default
    else default
  }

  /** The successful results of a `get_multi`. */
  function Hits(results: map<string, Option<Value>>): (hits: map<string, Value>)
    ensures hits.Keys <= results.Keys
    ensures forall k :: k in results && results[k].Some? ==> k in hits && hits[k] == results[k].value
    ensures forall k :: k in hits ==> results[k] == Some(hits[k])
  {
    map k | k in results && results[k].Some? :: results[k].value
  }

  /** The loops of `get_many` over the results: `ret[key] = result.value` for each successful one. */
  method CollectHits(results: map<string, Option<Value>>) returns (ret: map<string, Value>)
    ensures ret == Hits(results)
  {
    ret := map[];
    var todo := results.Keys;
    while todo != {}
      invariant todo <= results.Keys
      invariant forall k :: k in ret <==> k in results && k !in todo && results[k].Some?
      invariant forall k :: k in ret ==> ret[k] == results[k].value
      decreases todo
    {
      var k :| k in todo;
      if results[k].Some? {
        ret := ret[k := results[k].value];
      }
      todo := todo - {k};
    }
    assert ret.Keys == Hits(results).Keys;
  }

  /** `get_many` on the made keys: the fetched entries, also when NotFoundError reports partial results. */
  function GetManyResult(reachable: bool, d: Data, f0: Fault, keys: seq<string>, ttl: int): (r: map<string, Value>)
    ensures forall k :: k in r ==> k in d && r[k] == d[k].value && exists i :: 0 <= i < |keys| && keys[i] == k
    ensures reachable && f0 == Healthy ==> forall i :: 0 <= i < |keys| && keys[i] in d ==> keys[i] in r
    ensures !reachable || f0 != Healthy ==> r == map[]
  {
    if !reachable then map[]
    else
      var m := GetMultiStep(d, f0, keys, ttl);
      if m.reply.Done? || m.reply.NotFoundErr? then Hits(m.results) else map[]
  }

  /** `set_many` on the made-key dictionary: delete for a negative timeout, write otherwise; False on error. */
  function SetManyOutcome(reachable: bool, d: Data, f0: Fault, safe: map<string, Value>, t: int): (o: Outcome)
    ensures o.ret == RDone || o.ret == RFalse
    ensures o.calls == if reachable then 1 else 0
    ensures t < 0 ==> forall k :: k in o.data ==> k in d && o.data[k] == d[k]
    ensures t < 0 && reachable && f0 == Healthy ==> o.data == d - safe.Keys
    ensures t >= 0 && reachable && f0 == Healthy ==>
              o.ret == RDone && o.data.Keys == d.Keys + safe.Keys && forall k :: k in safe ==> o.data[k] == Entry(safe[k], t)
    ensures o.ret == RFalse && (t >= 0 || f0 != Healthy) ==> o.data == d
    ensures !reachable ==> o == Outcome(RFalse, d, 0)
    ensures reachable && f0 != Healthy ==> o == Outcome(RFalse, d, 1)
    ensures t >= 0 && reachable && f0 == Healthy ==> forall k :: k in d && k !in safe ==> o.data[k] == d[k]
    ensures t < 0 && reachable && f0 == Healthy ==> (o.ret == RDone <==> safe.Keys <= d.Keys)
  {
    if !reachable then Outcome(RFalse, d, 0)
    else if t < 0 then
      var s := DeleteMultiStep(d, f0, safe.Keys);
      Outcome(if s.reply.Done? then RDone else RFalse, s.data, 1)
    else
      var s := SetMultiStep(d, f0, safe, t);
      Outcome(if s.reply.Done? then RDone else RFalse, s.data, 1)
  }

  /** `delete_many` on the made keys: the store's result, or False on any error. */
  function DeleteManyOutcome(reachable: bool, d: Data, f0: Fault, keys: seq<string>): (o: Outcome)
    ensures o.ret == RDone || o.ret == RFalse
    ensures o.ret == RDone <==> reachable && f0 == Healthy && forall i :: 0 <= i < |keys| ==> keys[i] in d
    ensures reachable && f0 == Healthy ==> o.data == d - (set i | 0 <= i < |keys| :: keys[i])
    ensures !(reachable && f0 == Healthy) ==> o.data == d
    ensures o.calls == if reachable then 1 else 0
  {
    if !reachable then Outcome(RFalse, d, 0)
    else
      var s := DeleteMultiStep(d, f0, set i | 0 <= i < |keys| :: keys[i]);
      Outcome(if s.reply.Done? then RDone else RFalse, s.data, 1)
  }

  /** `map(make_key, keys)`. */
  function MadeKeys(makeKey: (string, Option<int>) -> string, keys: seq<string>, version: Option<int>): (ks: seq<string>)
    ensures |ks| == |keys| && forall i :: 0 <= i < |keys| ==> ks[i] == makeKey(keys[i], version)
  {
    seq(|keys|, i requires 0 <= i < |keys| => makeKey(keys[i], version))
  }

  /** `safe_data` after the loop over the first `|pairs|` items of `data.items()`. */
  function SafeData(makeKey: (string, Option<int>) -> string, pairs: seq<(string, Value)>, version: Option<int>)
    : (safe: map<string, Value>)
    ensures |safe| <= |pairs|
    ensures safe == map[] <==> pairs == []
    decreases |pairs|
  {
    if pairs == [] then map[]
    else SafeData(makeKey, pairs[..|pairs| - 1], version)[makeKey(pairs[|pairs| - 1].0, version) := pairs[|pairs| - 1].1]
  }

  /** `safe_data` has exactly the made keys. */
  lemma {:induction false} SafeDataKeys(makeKey: (string, Option<int>) -> string, pairs: seq<(string, Value)>,
                                        version: Option<int>)
    ensures SafeData(makeKey, pairs, version).Keys == set i | 0 <= i < |pairs| :: makeKey(pairs[i].0, version)
    decreases |pairs|
  {
    if pairs != [] {
      var n := |pairs| - 1;
      var init := pairs[..n];
      SafeDataKeys(makeKey, init, version);
      var keys := set i | 0 <= i < |pairs| :: makeKey(pairs[i].0, version);
      var keys' := set i | 0 <= i < |init| :: makeKey(init[i].0, version);
      forall x | x in keys ensures x in keys' + {makeKey(pairs[n].0, version)} {
        var i :| 0 <= i < |pairs| && x == makeKey(pairs[i].0, version);
        if i < n {
          assert init[i] == pairs[i];
        }
      }
      forall x | x in keys' ensures x in keys {
        var i :| 0 <= i < |init| && x == makeKey(init[i].0, version);
        assert init[i] == pairs[i];
      }
    }
  }

  /** Each made key holds the value of the last item whose key it was made from. */
  lemma {:induction false} SafeDataLastWins(makeKey: (string, Option<int>) -> string, pairs: seq<(string, Value)>,
                                            version: Option<int>, i: int)
    requires 0 <= i < |pairs|
    requires forall j :: i < j < |pairs| ==> makeKey(pairs[j].0, version) != makeKey(pairs[i].0, version)
    ensures var safe := SafeData(makeKey, pairs, version);
            makeKey(pairs[i].0, version) in safe && safe[makeKey(pairs[i].0, version)] == pairs[i].1
    decreases |pairs|
  {
    var n := |pairs| - 1;
    if i < n {
      var init := pairs[..n];
      assert init[i] == pairs[i];
      forall j | i < j < |init| ensures makeKey(init[j].0, version) != makeKey(init[i].0, version) {
        assert init[j] == pairs[j];
      }
      SafeDataLastWins(makeKey, init, version, i);
    }
  }

  /** A successful `set` is seen by the next healthy `get`. */
  lemma SetThenGet(d: Data, k: string, v: Value, t: int, f1: Fault, default: Value)
    requires t >= 0
    ensures GetResult(true, SetOutcome(true, d, Healthy, f1, k, v, t).data, Healthy, k, default) == v
  {
  }

  /** After a healthy `set` with a negative timeout, a `get` of that key returns the default. */
  lemma ExpiredSetThenGet(d: Data, f1: Fault, k: string, v: Value, t: int, g: Fault, default: Value)
    requires t < 0
    ensures GetResult(true, SetOutcome(true, d, Healthy, f1, k, v, t).data, g, k, default) == default
  {
  }

  /** Whatever `add` answers, an entry that was there before keeps its value and ttl. */
  lemma AddKeepsExisting(reachable: bool, d: Data, f0: Fault, k: string, v: Value, t: int)
    requires k in d
    ensures var o := AddOutcome(reachable, d, f0, k, v, t);
            o.ret == RFalse && o.data == d
  {
  }

  /** A healthy `set_many` followed by a healthy `get_many` of the same made keys returns the written values. */
  lemma SetManyThenGetMany(d: Data, safe: map<string, Value>, t: int, keys: seq<string>, ttl: int)
    requires t >= 0
    requires forall i :: 0 <= i < |keys| ==> keys[i] in safe
    ensures var r := GetManyResult(true, SetManyOutcome(true, d, Healthy, safe, t).data, Healthy, keys, ttl);
            r.Keys == (set i | 0 <= i < |keys| :: keys[i]) && forall k :: k in r ==> r[k] == safe[k]
  {
    var d' := SetManyOutcome(true, d, Healthy, safe, t).data;
    var r := GetManyResult(true, d', Healthy, keys, ttl);
    forall k | k in r ensures r[k] == safe[k] {
      var i :| 0 <= i < |keys| && keys[i] == k;
      assert k in safe;
    }
  }

  // ------------------------------------------------------------ the backend

  class CouchbaseCache {
    const server: seq<string>
    const options: map<string, string>
    const makeKey: (string, Option<int>) -> string
    const memcacheTimeout: Option<int> -> int
    const defaultTimeout: int
    const store: Store
    var client: Option<Connection>
    var bucket: string
    var couchbaseCli: string

    /** `__init__`: no client yet. */
    constructor (server: seq<string>, options: map<string, string>, makeKey: (string, Option<int>) -> string,
                 memcacheTimeout: Option<int> -> int, defaultTimeout: int, store: Store)
      ensures this.server == server && this.options == options && this.makeKey == makeKey
      ensures this.memcacheTimeout == memcacheTimeout && this.defaultTimeout == defaultTimeout && this.store == store
      ensures State() == Handles(None, "", "")
    {
      this.server := server;
      this.options := options;
      this.makeKey := makeKey;
      this.memcacheTimeout := memcacheTimeout;
      this.defaultTimeout := defaultTimeout;
      this.store := store;
      client := None;
      bucket := "";
      couchbaseCli := "";
    }

    function State(): Handles
      reads this
    {
      Handles(client, bucket, couchbaseCli)
    }

    /** Whether an access to `_cache` yields a client rather than raising 'need host'. */
    predicate Reachable()
      reads this
    {
      client.Some? || |server| > 0
    }

    /** The answer the oracle gives the store's `n`-th next call. */
    function Fault(n: nat): Fault
      reads store
    {
      store.faults(store.calls + n)
    }

    /** The `_cache` property. None stands for the 'need host' exception. */
    method Cache() returns (c: Option<Connection>)
      modifies this
      ensures State() == Connect(old(State()), server, options)
      ensures c == client && (c.Some? <==> old(Reachable()))
    {
      if client.Some? {
        return client;
      }
      if |server| == 0 {
        return None;
      }
      couchbaseCli := Setting(options, "couchbase-cli", "");
      bucket := Setting(options, "bucket", "default");
      var optFormat := Setting(options, "format", "");
      if optFormat !in {"JSON", "PICKLE", "BYTES", "UTF8", "AUTO", ""} {
        optFormat := "";
      }
      var hp := SplitAsWritten(server[0]);
      c := Some(Connection(bucket, hp.0, Setting(options, "password", ""), hp.1, FormatOf(optFormat)));
      client := c;
    }

    method Get(key: string, default: Value, version: Option<int>) returns (v: Value)
      modifies this, store
      ensures State() == Connect(old(State()), server, options)
      ensures v == GetResult(old(Reachable()), old(store.data), old(Fault(0)), makeKey(key, version), default)
      ensures store.data == old(store.data) && store.calls == old(store.calls) + (if old(Reachable()) then 1 else 0)
    {
      var k := makeKey(key, version);
      var c := Cache();
      if c.None? {
        return default;
      }
      var r := store.Get(k);
      v := if r.Done? then r.v else default;
    }

    method Set(key: string, value: Value, timeout: Option<int>, version: Option<int>) returns (r: Ret)
      modifies this, store
      ensures State() == Connect(old(State()), server, options)
      ensures var o := SetOutcome(old(Reachable()), old(store.data), old(Fault(0)), old(Fault(1)),
                                  makeKey(key, version), value, memcacheTimeout(timeout));
              r == o.ret && store.data == o.data && store.calls == old(store.calls) + o.calls
    {
      var k := makeKey(key, version);
      var cn := Cache();
      if cn.None? {
        return RRaise(NeedHost);
      }
      var t := memcacheTimeout(timeout);
      if t < 0 {
        var s := store.Delete(k);
        r := match s case Done(_) => RDone case OtherErr => RFalse case _ => RNone;
      } else {
        var s := store.Set(k, value, t);
        match s {
          case Done(_) => r := RDone;
          case KeyExistsErr => r := RNone;
          case OtherErr => r := RFalse;
          case NotFoundErr =>
            var a := store.Add(k, value, t);
            r := if a.Done? then RDone else RRaise(RaisedBy(a));
        }
      }
    }

    method Add(key: string, value: Value, timeout: Option<int>, version: Option<int>) returns (r: Ret)
      modifies this, store
      ensures var t := memcacheTimeout(timeout);
              State() == if t >= 0 then Connect(old(State()), server, options) else old(State())
      ensures var o := AddOutcome(old(Reachable()), old(store.data), old(Fault(0)), makeKey(key, version), value,
                                  memcacheTimeout(timeout));
              r == o.ret && store.data == o.data && store.calls == old(store.calls) + o.calls
    {
      var k := makeKey(key, version);
      var t := memcacheTimeout(timeout);
      r := RFalse;
      if t >= 0 {
        var cn := Cache();
        if cn.Some? {
          var s := store.Add(k, value, t);
          if s.Done? {
            r := RDone;
          }
        }
      }
    }

    method Delete(key: string, version: Option<int>) returns (r: Ret)
      modifies this, store
      ensures State() == Connect(old(State()), server, options)
      ensures var o := DeleteOutcome(old(Reachable()), old(store.data), old(Fault(0)), makeKey(key, version));
              r == o.ret && store.data == o.data && store.calls == old(store.calls) + o.calls
    {
      var k := makeKey(key, version);
      r := RFalse;
      var cn := Cache();
      if cn.Some? {
        var s := store.Delete(k);
        if s.Done? {
          r := RDone;
        }
      }
    }

    /** `incr` (`up`) and `decr`, which differ only in the store primitive they call. */
    method Counter(key: string, delta: int, version: Option<int>, up: bool) returns (r: Ret)
      modifies this, store
      ensures State() == Connect(old(State()), server, options)
      ensures var o := CounterOutcome(old(Reachable()), old(store.data), old(Fault(0)), old(Fault(1)),
                                      makeKey(key, version), delta, up, memcacheTimeout(Some(0)));
              r == o.ret && store.data == o.data && store.calls == old(store.calls) + o.calls
    {
      var k := makeKey(key, version);
      r := RFalse;
      var cn := Cache();
      if cn.None? {
        return;
      }
      var s := store.Counter(k, delta, up);
      match s {
        case Done(n) => r := RCounter(n);
        case NotFoundErr =>
          var a := store.Add(k, VInt(delta), memcacheTimeout(Some(0)));
          r := if a.Done? then RDone else RRaise(RaisedBy(a));
        case _ =>
      }
    }

    method Incr(key: string, delta: int, version: Option<int>) returns (r: Ret)
      modifies this, store
      ensures State() == Connect(old(State()), server, options)
      ensures var o := CounterOutcome(old(Reachable()), old(store.data), old(Fault(0)), old(Fault(1)),
                                      makeKey(key, version), delta, true, memcacheTimeout(Some(0)));
              r == o.ret && store.data == o.data && store.calls == old(store.calls) + o.calls
    {
      r := Counter(key, delta, version, true);
    }

    method Decr(key: string, delta: int, version: Option<int>) returns (r: Ret)
      modifies this, store
      ensures State() == Connect(old(State()), server, options)
      ensures var o := CounterOutcome(old(Reachable()), old(store.data), old(Fault(0)), old(Fault(1)),
                                      makeKey(key, version), delta, false, memcacheTimeout(Some(0)));
              r == o.ret && store.data == o.data && store.calls == old(store.calls) + o.calls
    {
      r := Counter(key, delta, version, false);
    }

    method GetMany(keys: seq<string>, version: Option<int>) returns (ret: map<string, Value>)
      modifies this, store
      ensures State() == Connect(old(State()), server, options)
      ensures ret == GetManyResult(old(Reachable()), old(store.data), old(Fault(0)), MadeKeys(makeKey, keys, version),
                                   memcacheTimeout(Some(defaultTimeout)))
      ensures store.data == if old(Reachable())
                            then GetMultiStep(old(store.data), old(Fault(0)), MadeKeys(makeKey, keys, version),
                                              memcacheTimeout(Some(defaultTimeout))).data
                            else old(store.data)
      ensures store.data.Keys == old(store.data.Keys)
      ensures store.calls == old(store.calls) + if old(Reachable()) then 1 else 0
    {
      var newKeys := MadeKeys(makeKey, keys, version);
      ret := map[];
      var cn := Cache();
      if cn.None? {
        return;
      }
      var reply, results := store.GetMulti(newKeys, memcacheTimeout(Some(defaultTimeout)));
      if reply.Done? || reply.NotFoundErr? {
        ret := CollectHits(results);
      }
    }

    method SetMany(data: seq<(string, Value)>, timeout: Option<int>, version: Option<int>) returns (r: Ret)
      modifies this, store
      ensures State() == Connect(old(State()), server, options)
      ensures var o := SetManyOutcome(old(Reachable()), old(store.data), old(Fault(0)), SafeData(makeKey, data, version),
                                      memcacheTimeout(timeout));
              r == o.ret && store.data == o.data && store.calls == old(store.calls) + o.calls
    {
      var safe: map<string, Value> := map[];
      var i := 0;
      while i < |data|
        invariant 0 <= i <= |data|
        invariant safe == SafeData(makeKey, data[..i], version)
      {
        assert data[..i + 1][..i] == data[..i];
        safe := safe[makeKey(data[i].0, version) := data[i].1];
        i := i + 1;
      }
      assert data[..|data|] == data;
      r := RFalse;
      var t := memcacheTimeout(timeout);
      var cn := Cache();
      if cn.None? {
        return;
      }
      var s;
      if t < 0 {
        s := store.DeleteMulti(safe.Keys);
      } else {
        s := store.SetMulti(safe, t);
      }
      if s.Done? {
        r := RDone;
      }
    }

    method DeleteMany(keys: seq<string>, version: Option<int>) returns (r: Ret)
      modifies this, store
      ensures State() == Connect(old(State()), server, options)
      ensures var o := DeleteManyOutcome(old(Reachable()), old(store.data), old(Fault(0)), MadeKeys(makeKey, keys, version));
              r == o.ret && store.data == o.data && store.calls == old(store.calls) + o.calls
    {
      var made := MadeKeys(makeKey, keys, version);
      r := RFalse;
      var cn := Cache();
      if cn.None? {
        return;
      }
      var s := store.DeleteMulti(set i | 0 <= i < |made| :: made[i]);
      if s.Done? {
        r := RDone;
      }
    }
  }
}
