/**
 * The behaviour of `CBModel` (django-couchbase/models.py) on model instances
 * held as values: identity, `to_dict` and the reference cascade it triggers,
 * `save`, `from_dict`/`from_row`/`load`, and the reference-list helpers.
 *
 * Nested and referenced instances live inside their parent's attributes
 * (`VRecord`), so everything that Python does to them in place is returned
 * here as their new value, together with the new state of the outside world
 * (the bucket, and how many uuids and clock readings have been consumed).
 */
module ModelSpec {
  import opened Wrappers
  import opened Values

  const DocTypeKey := "doc_type"
  const IdKey := "id"
  const SyncPtrKey := "cbnosync_ptr"
  const CsrfKey := "csrfmiddlewaretoken"
  const CreatedKey := "created"
  const UpdatedKey := "updated"
  const ChannelsKey := "channels"
  const RevKey := "rev"
  const PrefixKey := "id_prefix"

  /**
   * What the model calls but cannot see: the random uuid suffix and the clock
   * (indexed by how many have been drawn so far), `datetime.isoformat`,
   * `dateparse.parse_datetime` (None: it raised; Some(None): it returned None)
   * and `Decimal(...)` (None: it raised).
   */
  datatype Env = Env(
    uuid: nat -> string,
    now: nat -> Timestamp,
    isoformat: Timestamp -> string,
    parseDatetime: Value -> Option<Option<Timestamp>>,
    parseDecimal: Value -> Option<Dec>)

  /** The bucket (`self.db`) and the number of uuids and clock readings consumed. */
  datatype World = World(docs: map<Value, Doc>, drawn: nat, ticks: nat)

  // ---------------------------------------------------------------- identity

  /** `is_new`: the id is absent or falsy. */
  function IsNew(r: Rec): (b: bool)
    ensures r.id == VNone || r.id == VStr("") ==> b
    ensures r.id.VStr? && r.id.s != "" ==> !b
  {
    !Truthy(r.id)
  }

  datatype Ided = Ided(rec: Rec, id: Value, world: World)

  /** `get_id`: a new record gets `id_prefix + '::' + uuid`; a set id is kept. */
  function GetId(r: Rec, env: Env, w: World): (g: Ided)
    ensures g.id == g.rec.id && !IsNew(g.rec)
    ensures g.rec == r.(id := g.id)
    ensures g.world.docs == w.docs && g.world.ticks == w.ticks
    ensures !IsNew(r) ==> g.id == r.id && g.world == w
    ensures IsNew(r) ==> g.id == VStr(r.idPrefix + "::" + env.uuid(w.drawn)) && g.world.drawn == w.drawn + 1
  {
    if IsNew(r) then
      var id := VStr(r.idPrefix + "::" + env.uuid(w.drawn));
      Ided(r.(id := id), id, w.(drawn := w.drawn + 1))
    else
      Ided(r, r.id, w)
  }

  /** A second `get_id` returns the same id and draws nothing. */
  lemma GetIdIdempotent(r: Rec, env: Env, w: World, w': World)
    ensures var g := GetId(r, env, w);
            GetId(g.rec, env, w') == Ided(g.rec, g.id, w')
  {
  }

  /** Two new records of one prefix never receive the same id from an injective generator. */
  lemma NewIdsDiffer(a: Rec, b: Rec, env: Env, w: World)
    requires IsNew(a) && IsNew(b) && a.idPrefix == b.idPrefix
    requires forall m: nat, n: nat :: m != n ==> env.uuid(m) != env.uuid(n)
    ensures var ga := GetId(a, env, w);
            GetId(b, env, ga.world).id != ga.id
  {
    var ga := GetId(a, env, w);
    var gb := GetId(b, env, ga.world);
    var p := a.idPrefix + "::";
    assert ga.id.s == p + env.uuid(w.drawn);
    assert gb.id.s == p + env.uuid(w.drawn + 1);
    assert ga.id.s[|p|..] == env.uuid(w.drawn);
    assert gb.id.s[|p|..] == env.uuid(w.drawn + 1);
  }

  /** `get_doc_type`: the explicit `doc_type` when truthy, else the lower-cased class name. */
  function DocType(m: Meta): (t: string)
    ensures m.docType.Some? && m.docType.value != "" ==> t == m.docType.value
    ensures !(m.docType.Some? && m.docType.value != "") ==> t == Lower(m.className)
    ensures t != "" <==> (m.docType.Some? && m.docType.value != "") || m.className != ""
  {
    if m.docType.Some? && m.docType.value != "" then m.docType.value else Lower(m.className)
  }

  /** `__clean_kwargs`: the keyword arguments that name a declared field. */
  function CleanKwargs(m: Meta, data: map<string, Value>): (clean: map<string, Value>)
    ensures clean.Keys == FieldNames(m.fields) * data.Keys
    ensures forall k :: k in clean ==> clean[k] == data[k]
  {
    map k | k in FieldNames(m.fields) * data.Keys :: data[k]
  }

  /**
   * `__init__(**kwargs)`: `channels` is `[]` and `rev` None; an `id_prefix` or
   * `id` keyword overrides the class prefix or the None id and is consumed; Django
   * then gives every declared field its default, or the value of a keyword
   * argument that survives `__clean_kwargs`.
   */
  function Init(m: Meta, kwargs: map<string, Value>): (r: Rec)
    ensures r.meta == m
    ensures PrefixKey in kwargs && kwargs[PrefixKey].VStr? ==> r.idPrefix == kwargs[PrefixKey].s
    ensures !(PrefixKey in kwargs && kwargs[PrefixKey].VStr?) ==> r.idPrefix == m.idPrefix
    ensures IdKey in kwargs ==> r.id == kwargs[IdKey]
    ensures IdKey !in kwargs ==> r.id == VNone
    ensures r.attrs.Keys == {ChannelsKey, RevKey} + m.defaults.Keys + (FieldNames(m.fields) * kwargs.Keys - {PrefixKey, IdKey})
    ensures forall k :: k in FieldNames(m.fields) && k in kwargs && k != PrefixKey && k != IdKey ==> r.attrs[k] == kwargs[k]
    ensures forall k :: k in m.defaults && !(k in FieldNames(m.fields) && k in kwargs && k != PrefixKey && k != IdKey) ==>
              r.attrs[k] == m.defaults[k]
    ensures ChannelsKey !in m.defaults && !(ChannelsKey in FieldNames(m.fields) && ChannelsKey in kwargs) ==>
              r.attrs[ChannelsKey] == VList([])
    ensures RevKey !in m.defaults && !(RevKey in FieldNames(m.fields) && RevKey in kwargs) ==> r.attrs[RevKey] == VNone
  {
    var prefix := if PrefixKey in kwargs && kwargs[PrefixKey].VStr? then kwargs[PrefixKey].s else m.idPrefix;
    var id := if IdKey in kwargs then kwargs[IdKey] else VNone;
    var clean := CleanKwargs(m, kwargs - {PrefixKey, IdKey});
    Rec(m, prefix, id, map[ChannelsKey := VList([]), RevKey := VNone] + m.defaults + clean)
  }

  /** `nested_klass()` is `__init__` without keyword arguments. */
  lemma FreshIsInit(m: Meta)
    ensures Fresh(m) == Init(m, map[])
  {
    assert CleanKwargs(m, map[] - {PrefixKey, IdKey}) == map[];
  }

  // ------------------------------------------------------- dates and decimals

  /** `_string_from_date`: the ISO text of a datetime, None for anything else or a missing attribute. */
  function StringFromDate(v: Option<Value>, env: Env): (s: Value)
    ensures s.VStr? <==> v.Some? && v.value.VDate?
    ensures s.VStr? ==> s == VStr(env.isoformat(v.value.t))
    ensures !s.VStr? ==> s == VNone
  {
    if v.Some? && v.value.VDate? then VStr(env.isoformat(v.value.t)) else VNone
  }

  /** The value `_date_from_string` stores: the parse result, or the raw value when parsing raised. */
  function DateOrRaw(val: Value, env: Env): (v: Value)
    ensures env.parseDatetime(val).None? ==> v == val
    ensures env.parseDatetime(val) == Some(None) ==> v == VNone
    ensures env.parseDatetime(val).Some? && env.parseDatetime(val).value.Some? ==>
              v == VDate(env.parseDatetime(val).value.value)
  {
    match env.parseDatetime(val)
    case None => val
    case Some(None) => VNone
    case Some(Some(t)) => VDate(t)
  }

  /** The value `_decimal_from_string` stores: the decimal, or the raw value when `Decimal` raised. */
  function DecimalOrRaw(val: Value, env: Env): (v: Value)
    ensures env.parseDecimal(val).None? ==> v == val
    ensures env.parseDecimal(val).Some? ==> v == VDecimal(env.parseDecimal(val).value)
  {
    match env.parseDecimal(val)
    case None => val
    case Some(x) => VDecimal(x)
  }

  // ------------------------------------------------------------------ encode

  /** `model_to_dict` followed by the JSON round trip, taken as the identity: the declared fields' values. */
  function ModelToDict(r: Rec): (d: Doc)
    ensures d.Keys == FieldNames(r.meta.fields) * r.attrs.Keys
    ensures forall k :: k in d ==> d[k] == r.attrs[k]
  {
    map k | k in FieldNames(r.meta.fields) * r.attrs.Keys :: r.attrs[k]
  }

  /** The dictionary `to_dict` holds before its field loop (lines 106-113). */
  function BaseDict(r: Rec, id: Value): (d: Doc)
    ensures DocTypeKey in d && d[DocTypeKey] == VStr(DocType(r.meta))
    ensures IdKey in d && d[IdKey] == id
    ensures SyncPtrKey !in d && CsrfKey !in d
    ensures forall k :: k in FieldNames(r.meta.fields) && k in r.attrs &&
                        k != DocTypeKey && k != IdKey && k != SyncPtrKey && k != CsrfKey ==>
                          k in d && d[k] == r.attrs[k]
  {
    assert |DocTypeKey| == 8 && |IdKey| == 2 && |SyncPtrKey| == 12 && |CsrfKey| == 19;
    (ModelToDict(r)[DocTypeKey := VStr(DocType(r.meta))][IdKey := id]) - {SyncPtrKey, CsrfKey}
  }

  /** `start` is `src` with some attributes replaced by datetimes (the `save` stamps). */
  ghost predicate Derived(src: Rec, start: Rec)
  {
    forall k :: k in start.attrs ==>
      start.attrs[k].VDate? || (k in src.attrs && start.attrs[k] == src.attrs[k])
  }

  /** The attribute value `v` is a datetime or strictly inside `src`. */
  ghost predicate Below(v: Option<Value>, src: Rec)
  {
    v.Some? ==> v.value.VDate? || v.value < src
  }

  /** Both documents leave the keys of the first bucket in place. */
  ghost predicate Grows(w: World, w': World)
  {
    w.docs.Keys <= w'.docs.Keys
  }

  /** One field of `to_dict`: the attribute's new value (None: it is missing), the dictionary, the world. */
  datatype Encoded = Encoded(attr: Option<Value>, doc: Result<Doc>, world: World)

  /** A record after `to_dict` or `save`: its new value, the document (or the error), the world. */
  datatype Saved = Saved(rec: Rec, doc: Result<Doc>, world: World)

  /** The field loop of `to_dict`: the attributes after write-back, the dictionary, the world. */
  datatype Fold = Fold(attrs: map<string, Value>, doc: Result<Doc>, world: World)

  /** A loop over a list attribute: its elements after the loop, the collected output, the world. */
  datatype Looped = Looped(items: seq<Value>, out: Result<seq<Value>>, world: World)

  /** `to_dict`. */
  function ToDict(r: Rec, env: Env, w: World): (s: Saved)
    ensures s.rec == r.(id := GetId(r, env, w).id, attrs := s.rec.attrs)
    ensures !IsNew(s.rec) && Grows(w, s.world) && s.doc != Err(KeyExists)
    decreases r, |r.meta.fields| + 5
  {
    ToDictFrom(r, r, env, w)
  }

  /** `to_dict` of `r`; `src` is `r` before `save` stamped it and only bounds the recursion. */
  function ToDictFrom(ghost src: Rec, r: Rec, env: Env, w: World): (s: Saved)
    requires Derived(src, r)
    ensures s.rec == r.(id := GetId(r, env, w).id, attrs := s.rec.attrs)
    ensures !IsNew(s.rec) && Grows(w, s.world) && s.doc != Err(KeyExists)
    decreases src, |r.meta.fields| + 4
  {
    var g := GetId(r, env, w);
    var f := EncodeFields(src, g.rec, 0, g.rec.attrs, BaseDict(r, g.id), env, g.world);
    Saved(g.rec.(attrs := f.attrs), f.doc, f.world)
  }

  /** The loop over `_meta.fields` in `to_dict`, from field `i` on; each value is read from `start`. */
  function EncodeFields(ghost src: Rec, start: Rec, i: nat, attrs: map<string, Value>, d: Doc,
                        env: Env, w: World): (f: Fold)
    requires Derived(src, start) && i <= |start.meta.fields|
    ensures Grows(w, f.world) && f.doc != Err(KeyExists)
    decreases src, |start.meta.fields| - i + 3
  {
    if i == |start.meta.fields| then Fold(attrs, Ok(d), w)
    else
      var fd := start.meta.fields[i];
      var e := EncodeField(src, fd, Get(start.attrs, fd.name), d, env, w);
      var attrs' := if e.attr.Some? then attrs[fd.name := e.attr.value] else attrs;
      if e.doc.Err? then Fold(attrs', e.doc, e.world)
      else EncodeFields(src, start, i + 1, attrs', e.doc.value, env, e.world)
  }

  /** The kinds the `to_dict` loop rewrites. */
  predicate Rewritten(k: FieldKind)
  {
    k.DateTime? || k.EmbeddedList? || k.ReferenceList? || k.Embedded? || k.Reference?
  }

  /** The body of the `to_dict` loop for one field, dispatching on its kind. */
  function EncodeField(ghost src: Rec, fd: Field, v: Option<Value>, d: Doc, env: Env, w: World): (e: Encoded)
    requires Below(v, src)
    ensures Grows(w, e.world) && e.doc != Err(KeyExists)
    ensures !Rewritten(fd.kind) ==> e == Encoded(v, Ok(d), w)
    ensures e.doc.Ok? ==> e.doc.value - {fd.name} == d - {fd.name}
    decreases src, 2
  {
    match fd.kind
    case DateTime => Encoded(v, Ok(d[fd.name := StringFromDate(v, env)]), w)
    case EmbeddedList(_) => EncodeNestedList(src, fd.name, v, d, env, w)
    case ReferenceList => EncodeReferenceList(src, fd.name, v, d, env, w)
    case Embedded(_) => EncodeNested(src, fd.name, v, d, env, w)
    case Reference => EncodeReference(src, fd.name, v, d, env, w)
    case _ => Encoded(v, Ok(d), w)
  }

  /** `to_dict_nested`: the embedded instance's own `to_dict` under `key`. */
  function EncodeNested(ghost src: Rec, key: string, v: Option<Value>, d: Doc, env: Env, w: World): (e: Encoded)
    requires Below(v, src)
    ensures Grows(w, e.world) && e.doc != Err(KeyExists)
    ensures e.doc.Ok? ==> v.Some? && v.value.VRecord? &&
                          var s := ToDict(v.value.rec, env, w);
                          s.doc.Ok? && e.attr == Some(VRecord(s.rec)) && e.doc.value == d[key := VDict(s.doc.value)]
    decreases src, 1
  {
    if v.Some? && v.value.VRecord? then
      var s := ToDict(v.value.rec, env, w);
      Encoded(Some(VRecord(s.rec)), if s.doc.Ok? then Ok(d[key := VDict(s.doc.value)]) else s.doc, s.world)
    else
      Encoded(v, Err(RuntimeError), w)
  }

  /** Python's "truthy and not a string", the test of every reference helper. */
  predicate Keep(x: Value)
  {
    Truthy(x) && !x.VStr?
  }

  /** `to_dict_reference`: a truthy non-string referent is saved and its id stored under `key`. */
  function EncodeReference(ghost src: Rec, key: string, v: Option<Value>, d: Doc, env: Env, w: World): (e: Encoded)
    requires Below(v, src)
    ensures Grows(w, e.world) && e.doc != Err(KeyExists)
    ensures v.Some? && !Keep(v.value) ==> e == Encoded(v, Ok(d), w)
    ensures e.doc.Ok? && v.Some? && Keep(v.value) ==>
              v.value.VRecord? && e.attr.Some? && e.attr.value.VRecord? &&
              var c := e.attr.value.rec;
              !IsNew(c) && e.doc.value == d[key := c.id] && c.id in e.world.docs &&
              c == Save(v.value.rec, env, w).rec
    decreases src, 1
  {
    if v.None? then Encoded(v, Err(RuntimeError), w)
    else if Keep(v.value) then
      if v.value.VRecord? then
        var s := Save(v.value.rec, env, w);
        Encoded(Some(VRecord(s.rec)), if s.doc.Ok? then Ok(d[key := s.rec.id]) else s.doc, s.world)
      else
        Encoded(v, Err(RuntimeError), w)
    else
      Encoded(v, Ok(d), w)
  }

  /** `to_dict_reference_list`: the ids of the saved referents of a non-empty list, `[]` otherwise. */
  function EncodeReferenceList(ghost src: Rec, key: string, v: Option<Value>, d: Doc, env: Env, w: World): (e: Encoded)
    requires Below(v, src)
    ensures Grows(w, e.world) && e.doc != Err(KeyExists)
    ensures e.doc.Ok? ==> v.Some? && key in e.doc.value && e.doc.value - {key} == d - {key}
    decreases src, 1
  {
    if v.None? then Encoded(v, Err(RuntimeError), w)
    else if v.value.VList? && |v.value.items| > 0 then
      var l := SaveEach(src, v.value.items, 0, [], [], env, w);
      Encoded(Some(VList(l.items)), if l.out.Ok? then Ok(d[key := VList(l.out.value)]) else Err(l.out.error), l.world)
    else
      Encoded(v, Ok(d[key := VList([])]), w)
  }

  /** The loop of `to_dict_reference_list` from element `k` on; `done` holds the elements already visited. */
  function SaveEach(ghost src: Rec, items: seq<Value>, k: nat, done: seq<Value>, ids: seq<Value>,
                    env: Env, w: World): (l: Looped)
    requires VList(items) < src && k <= |items| && |done| == k
    ensures |l.items| == |items| && Grows(w, l.world) && l.out != Err(KeyExists)
    decreases src, 0, |items| - k
  {
    if k == |items| then Looped(done, Ok(ids), w)
    else
      var x := items[k];
      if Keep(x) then
        if x.VRecord? then
          var s := Save(x.rec, env, w);
          if s.doc.Ok? then SaveEach(src, items, k + 1, done + [VRecord(s.rec)], ids + [s.rec.id], env, s.world)
          else Looped(done + [VRecord(s.rec)] + items[k + 1..], Err(s.doc.error), s.world)
        else
          Looped(done + items[k..], Err(RuntimeError), w)
      else
        SaveEach(src, items, k + 1, done + [x], ids, env, w)
  }

  /** An iterable that yields nothing: the empty string or the empty dict. */
  predicate EmptyIterable(x: Value)
  {
    x == VStr("") || x == VDict(map[])
  }

  /** `to_dict_nested_list`: the list of the embedded instances' documents under `key`. */
  function EncodeNestedList(ghost src: Rec, key: string, v: Option<Value>, d: Doc, env: Env, w: World): (e: Encoded)
    requires Below(v, src)
    ensures Grows(w, e.world) && e.doc != Err(KeyExists)
    ensures e.doc.Ok? ==> key in e.doc.value && e.doc.value - {key} == d - {key}
    decreases src, 1
  {
    if v.None? then Encoded(v, Err(RuntimeError), w)
    else if v.value.VList? then
      var l := EncodeEach(src, v.value.items, 0, [], [], env, w);
      Encoded(Some(VList(l.items)), if l.out.Ok? then Ok(d[key := VList(l.out.value)]) else Err(l.out.error), l.world)
    else if EmptyIterable(v.value) then
      Encoded(v, Ok(d[key := VList([])]), w)
    else
      Encoded(v, Err(RuntimeError), w)
  }

  /** The loop of `to_dict_nested_list` from element `k` on. */
  function EncodeEach(ghost src: Rec, items: seq<Value>, k: nat, done: seq<Value>, docs: seq<Value>,
                      env: Env, w: World): (l: Looped)
    requires VList(items) < src && k <= |items| && |done| == k
    ensures |l.items| == |items| && Grows(w, l.world) && l.out != Err(KeyExists)
    decreases src, 0, |items| - k
  {
    if k == |items| then Looped(done, Ok(docs), w)
    else if items[k].VRecord? then
      var s := ToDict(items[k].rec, env, w);
      if s.doc.Ok? then EncodeEach(src, items, k + 1, done + [VRecord(s.rec)], docs + [VDict(s.doc.value)], env, s.world)
      else Looped(done + [VRecord(s.rec)] + items[k + 1..], Err(s.doc.error), s.world)
    else
      Looped(done + items[k..], Err(RuntimeError), w)
  }

  // -------------------------------------------------------------------- save

  /** The first two lines of `save`: refresh `updated`, set `created` when absent or None. */
  function Stamp(r: Rec, now: Timestamp): (r': Rec)
    ensures r'.meta == r.meta && r'.idPrefix == r.idPrefix && r'.id == r.id
    ensures UpdatedKey in r'.attrs && r'.attrs[UpdatedKey] == VDate(now) && CreatedKey in r'.attrs
    ensures CreatedKey !in r.attrs || r.attrs[CreatedKey] == VNone ==> r'.attrs[CreatedKey] == VDate(now)
    ensures CreatedKey in r.attrs && r.attrs[CreatedKey] != VNone ==> r'.attrs[CreatedKey] == r.attrs[CreatedKey]
    ensures r'.attrs - {CreatedKey, UpdatedKey} == r.attrs - {CreatedKey, UpdatedKey}
    ensures Derived(r, r')
  {
    assert CreatedKey[0] != UpdatedKey[0];
    var r1 := r.(attrs := r.attrs[UpdatedKey := VDate(now)]);
    if CreatedKey !in r1.attrs || r1.attrs[CreatedKey] == VNone then
      r1.(attrs := r1.attrs[CreatedKey := VDate(now)])
    else
      r1
  }

  /**
   * `save` (and `CBNestedModel.save`, which always raises). The file-field
   * commit is not modelled. The `add` branch is kept as written although
   * `to_dict` has always assigned an id by then.
   */
  function Save(r: Rec, env: Env, w: World): (s: Saved)
    ensures r.meta.nested ==> s == Saved(r, Err(ModelError), w)
    ensures s.rec.meta == r.meta && s.rec.idPrefix == r.idPrefix
    ensures !r.meta.nested ==> !IsNew(s.rec) && s.rec.id == GetId(r, env, w).id
    ensures s.doc.Ok? ==> s.rec.id in s.world.docs && s.world.docs[s.rec.id] == s.doc.value
    ensures Grows(w, s.world) && s.doc != Err(KeyExists)
    decreases r, |r.meta.fields| + 5
  {
    if r.meta.nested then Saved(r, Err(ModelError), w)
    else
      var r1 := Stamp(r, env.now(w.ticks));
      var s := ToDictFrom(r, r1, env, w.(ticks := w.ticks + 1));
      if s.doc.Err? then s
      else
        var doc := s.doc.value;
        if IsNew(s.rec) then
          if s.rec.id in s.world.docs then Saved(s.rec, Err(KeyExists), s.world)
          else Saved(s.rec, s.doc, s.world.(docs := s.world.docs[s.rec.id := doc]))
        else
          Saved(s.rec, s.doc, s.world.(docs := s.world.docs[s.rec.id := doc]))
  }

  /** `to_dict_partial_reference`: a saved referent's id under `key`, then each link's copied attribute. */
  function EncodePartialReference(key: string, v: Option<Value>, d: Doc, links: seq<(string, string)>,
                                  env: Env, w: World): (e: Encoded)
    ensures v.Some? && !Keep(v.value) ==> e == Encoded(v, Ok(d), w)
    ensures e.doc.Ok? && v.Some? && Keep(v.value) ==>
              v.value.VRecord? && e.attr.Some? && e.attr.value.VRecord? &&
              var c := e.attr.value.rec;
              !IsNew(c) && c.id in e.world.docs && c == Save(v.value.rec, env, w).rec &&
              e.doc == CopyLinks(c, d[key := c.id], links, 0)
  {
    if v.None? then Encoded(v, Err(RuntimeError), w)
    else if Keep(v.value) then
      if v.value.VRecord? then
        var s := Save(v.value.rec, env, w);
        Encoded(Some(VRecord(s.rec)), if s.doc.Ok? then CopyLinks(s.rec, d[key := s.rec.id], links, 0) else s.doc, s.world)
      else
        Encoded(v, Err(RuntimeError), w)
    else
      Encoded(v, Ok(d), w)
  }

  /** `getattr(record, name)`: instance attributes first, then the `id_prefix`/`doc_type` class attributes. */
  function AttrOf(c: Rec, name: string): (v: Option<Value>)
    ensures name == IdKey ==> v == Some(c.id)
    ensures name != IdKey && name in c.attrs ==> v == Some(c.attrs[name])
  {
    if name == IdKey then Some(c.id)
    else if name in c.attrs then Some(c.attrs[name])
    else if name == "id_prefix" then Some(VStr(c.idPrefix))
    else if name == DocTypeKey then Some(if c.meta.docType.Some? then VStr(c.meta.docType.value) else VNone)
    else None
  }

  /** The loop over `links` in `to_dict_partial_reference`, from link `j` on. */
  function CopyLinks(c: Rec, d: Doc, links: seq<(string, string)>, j: nat): (r: Result<Doc>)
    requires j <= |links|
    ensures r.Err? ==> r.error == RuntimeError
    ensures r.Ok? ==> d.Keys <= r.value.Keys
    ensures r.Ok? ==> forall i :: j <= i < |links| ==> links[i].0 in r.value && AttrOf(c, links[i].1).Some?
    decreases |links| - j
  {
    if j == |links| then Ok(d)
    else
      var a := AttrOf(c, links[j].1);
      if a.None? then Err(RuntimeError)
      else CopyLinks(c, d[links[j].0 := a.value], links, j + 1)
  }

  // ------------------------------------------------------------------ decode

  /** A record after a decode step, with the error that interrupted it if any. */
  datatype Decoded = Decoded(rec: Rec, err: Option<Error>)

  /** A list attribute being decoded: the items appended so far and the interrupting error if any. */
  datatype ListDecoded = ListDecoded(items: seq<Value>, err: Option<Error>)

  /** A fresh instance of a model class, as `nested_klass()` builds it (see `FreshIsInit`). */
  function Fresh(m: Meta): (r: Rec)
    ensures r.meta == m && r.idPrefix == m.idPrefix && r.id == VNone && IsNew(r)
  {
    Rec(m, m.idPrefix, VNone, map[ChannelsKey := VList([]), RevKey := VNone] + m.defaults)
  }

  /** `from_dict`: merge the payload into the record, then take its `id` if it has one. */
  function FromDict(r: Rec, p: Doc, env: Env): (o: Decoded)
    ensures o.rec.meta == r.meta && o.rec.idPrefix == r.idPrefix
    ensures o.err.None? && IdKey in p ==> o.rec.id == p[IdKey]
    ensures !(o.err.None? && IdKey in p) ==> o.rec.id == r.id
    decreases r.meta, 1, |r.meta.fields| + 1
  {
    var o := DecodeFields(r, 0, p, env);
    if o.err.None? && IdKey in p then Decoded(o.rec.(id := p[IdKey]), None) else o
  }

  /** The loop over `_meta.fields` in `from_dict`, from field `i` on. */
  function DecodeFields(r: Rec, i: nat, p: Doc, env: Env): (o: Decoded)
    requires i <= |r.meta.fields|
    ensures o.rec.meta == r.meta && o.rec.idPrefix == r.idPrefix && o.rec.id == r.id
    decreases r.meta, 1, |r.meta.fields| - i
  {
    if i == |r.meta.fields| then Decoded(r, None)
    else
      var fd := r.meta.fields[i];
      var o := DecodeField(r, fd, p, env);
      if o.err.Some? then o else DecodeFields(o.rec, i + 1, p, env)
  }

  /** The body of the `from_dict` loop for one declared field of `r`. */
  function DecodeField(r: Rec, fd: Field, p: Doc, env: Env): (o: Decoded)
    requires fd in r.meta.fields
    ensures o.rec.meta == r.meta && o.rec.idPrefix == r.idPrefix && o.rec.id == r.id
    ensures o.rec.attrs - {fd.name} == r.attrs - {fd.name}
    ensures fd.name !in p || fd.kind.ReferenceList? || fd.kind.PlainList? ==> o == Decoded(r, None)
    decreases r.meta, 0
  {
    var n := fd.name;
    if n !in p then Decoded(r, None)
    else
      match fd.kind
      case Embedded(m) => FromDictNested(r, n, m, p, env)
      case EmbeddedList(m) => FromDictNestedList(r, n, m, p, env)
      case ReferenceList => Decoded(r, None)
      case PlainList => Decoded(r, None)
      case DateTime => Decoded(r.(attrs := r.attrs[n := DateOrRaw(p[n], env)]), None)
      case Decimal => Decoded(r.(attrs := r.attrs[n := DecimalOrRaw(p[n], env)]), None)
      case _ => Decoded(r.(attrs := r.attrs[n := p[n]]), None)
  }

  /** `from_dict_nested`: a fresh instance of `m` decoded from `p[key]`, when `key` is there. */
  function FromDictNested(r: Rec, key: string, m: Meta, p: Doc, env: Env): (o: Decoded)
    ensures o.rec.meta == r.meta && o.rec.idPrefix == r.idPrefix && o.rec.id == r.id
    ensures o.rec.attrs - {key} == r.attrs - {key}
    ensures key !in p ==> o == Decoded(r, None)
    ensures key in p ==> (o.err.None? <==> p[key].VDict? && FromDict(Fresh(m), p[key].entries, env).err.None?)
    ensures key in p && o.err.None? ==> key in o.rec.attrs && o.rec.attrs[key] == VRecord(FromDict(Fresh(m), p[key].entries, env).rec)
    ensures o.err.Some? ==> o.rec == r
    decreases m, 5
  {
    if key in p then
      var c := DecodeNested(m, p[key], env);
      if c.Ok? then Decoded(r.(attrs := r.attrs[key := VRecord(c.value)]), None)
      else Decoded(r, Some(c.error))
    else
      Decoded(r, None)
  }

  /** `from_dict_nested_list`: reset the attribute to `[]`, then append one decoded instance per element. */
  function FromDictNestedList(r: Rec, key: string, m: Meta, p: Doc, env: Env): (o: Decoded)
    ensures o.rec.meta == r.meta && o.rec.idPrefix == r.idPrefix && o.rec.id == r.id
    ensures o.rec.attrs - {key} == r.attrs - {key} && key in o.rec.attrs && o.rec.attrs[key].VList?
    decreases m, 5
  {
    if key in p then
      var l := DecodeNestedList(m, p[key], env);
      Decoded(r.(attrs := r.attrs[key := VList(l.items)]), l.err)
    else
      Decoded(r.(attrs := r.attrs[key := VList([])]), None)
  }

  /** `item = nested_klass(); item.from_dict(d)`; a non-dict payload makes Python raise. */
  function DecodeNested(m: Meta, v: Value, env: Env): (c: Result<Rec>)
    ensures c.Ok? ==> v.VDict? && c.value.meta == m
    ensures c.Ok? <==> v.VDict? && FromDict(Fresh(m), v.entries, env).err.None?
    ensures c.Ok? ==> c.value == FromDict(Fresh(m), v.entries, env).rec
    ensures !v.VDict? ==> c == Err(RuntimeError)
    decreases m, 2
  {
    if v.VDict? then
      var o := FromDict(Fresh(m), v.entries, env);
      if o.err.None? then Ok(o.rec) else Err(o.err.value)
    else
      Err(RuntimeError)
  }

  /** The loop of `from_dict_nested_list` over the payload's elements. */
  function DecodeNestedList(m: Meta, v: Value, env: Env): (l: ListDecoded)
    ensures l.err.None? && v.VList? ==> |l.items| == |v.items|
    ensures !v.VList? ==> l.items == [] && (l.err.None? <==> EmptyIterable(v))
    decreases m, 4
  {
    if v.VList? then DecodeEach(m, v.items, 0, [], env)
    else if EmptyIterable(v) then ListDecoded([], None)
    else ListDecoded([], Some(RuntimeError))
  }

  function DecodeEach(m: Meta, items: seq<Value>, k: nat, acc: seq<Value>, env: Env): (l: ListDecoded)
    requires k <= |items|
    ensures l.err.None? ==> |l.items| == |acc| + |items| - k
    decreases m, 3, |items| - k
  {
    if k == |items| then ListDecoded(acc, None)
    else
      var c := DecodeNested(m, items[k], env);
      if c.Ok? then DecodeEach(m, items, k + 1, acc + [VRecord(c.value)], env)
      else ListDecoded(acc, Some(c.error))
  }

  /** `from_row`: decode the row's value, then the row's key becomes the id. */
  function FromRow(r: Rec, key: Value, value: Doc, env: Env): (o: Decoded)
    ensures o.rec.meta == r.meta
    ensures o.err.None? ==> o.rec.id == key
    ensures o.err == FromDict(r, value, env).err
    ensures o.err.Some? ==> o.rec == FromDict(r, value, env).rec
  {
    var f := FromDict(r, value, env);
    if f.err.None? then Decoded(f.rec.(id := key), None) else f
  }

  /** `load` (and `CBNestedModel.load`): every failure of the fetch or the decode becomes NotFound. */
  function Load(r: Rec, key: Value, docs: map<Value, Doc>, env: Env): (o: Decoded)
    ensures r.meta.nested ==> o == Decoded(r, Some(ModelError))
    ensures !r.meta.nested && key !in docs ==> o == Decoded(r, Some(NotFound))
    ensures !r.meta.nested && o.err.Some? ==> o.err == Some(NotFound)
    ensures o.err.None? ==> key in docs && o == FromRow(r, key, docs[key], env)
  {
    if r.meta.nested then Decoded(r, Some(ModelError))
    else if key !in docs then Decoded(r, Some(NotFound))
    else
      var o := FromRow(r, key, docs[key], env);
      if o.err.Some? then Decoded(o.rec, Some(NotFound)) else o
  }

  // ---------------------------------------------------- reference-list helpers

  /** `getattr(self, key, [])`, with anything but a list replaced by `[]`. */
  function AsList(v: Option<Value>): (l: seq<Value>)
    ensures v.Some? && v.value.VList? ==> l == v.value.items
    ensures !(v.Some? && v.value.VList?) ==> l == []
  {
    if v.Some? && v.value.VList? then v.value.items else []
  }

  predicate NoDup(l: seq<Value>)
  {
    forall i, j :: 0 <= i < j < |l| ==> l[i] != l[j]
  }

  /** The list after `if value not in v: v.append(value)`. */
  function AppendUnique(l: seq<Value>, x: Value): (l': seq<Value>)
    ensures x in l'
    ensures x in l ==> l' == l
    ensures x !in l ==> l' == l + [x]
    ensures NoDup(l) ==> NoDup(l')
  {
    if x in l then l else l + [x]
  }

  /** The index of the first occurrence of `x` in `l`. */
  function FirstIndex(l: seq<Value>, x: Value): (i: nat)
    requires x in l
    ensures i < |l| && l[i] == x && x !in l[..i]
  {
    if l[0] == x then 0
    else
      assert x in l[1..];
      var j := FirstIndex(l[1..], x);
      assert l[..j + 1] == [l[0]] + l[1..][..j];
      j + 1
  }

  /** The list after `if value in v: v.remove(value)`: the first occurrence is deleted. */
  function RemoveFirst(l: seq<Value>, x: Value): (l': seq<Value>)
    ensures x !in l ==> l' == l
    ensures x in l ==> |l'| == |l| - 1
  {
    if x in l then
      var i := FirstIndex(l, x);
      l[..i] + l[i + 1..]
    else l
  }

  /** `remove` takes away exactly one occurrence of a present value and none of an absent one. */
  lemma RemoveFirstCounts(l: seq<Value>, x: Value)
    ensures multiset(RemoveFirst(l, x)) == multiset(l) - multiset{x}
  {
    if x in l {
      var i := FirstIndex(l, x);
      assert l == l[..i] + [x] + l[i + 1..];
      assert multiset(l) == multiset(l[..i]) + multiset{x} + multiset(l[i + 1..]);
    } else {
      assert multiset(l)[x] == 0;
    }
  }

  /** Every element before the first occurrence keeps its place, every later one moves down by one. */
  lemma RemoveFirstShifts(l: seq<Value>, x: Value)
    requires x in l
    ensures var i := FirstIndex(l, x);
            var l' := RemoveFirst(l, x);
            (forall j :: 0 <= j < i ==> l'[j] == l[j]) && (forall j :: i < j < |l| ==> l'[j - 1] == l[j])
  {
  }

  /** On a list without duplicates (what `append_to_references_list` builds) the value is gone afterwards. */
  lemma RemoveFirstRemoves(l: seq<Value>, x: Value)
    requires NoDup(l)
    ensures x !in RemoveFirst(l, x)
  {
    if x in l {
      var i := FirstIndex(l, x);
      assert x !in l[i + 1..] by {
        forall j | i + 1 <= j < |l| ensures l[j] != x {
          assert l[i] == x;
        }
      }
      assert x !in l[..i] + l[i + 1..];
    }
  }
}
