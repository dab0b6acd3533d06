/**
 * `CBModel` as the source uses it: an object whose methods update its own
 * attributes, the bucket `self.db`, the uuid generator and the clock. Every
 * method is proved to do exactly what the matching function of ModelSpec
 * says, whose properties ModelProperties proves.
 *
 * Embedded and referenced instances are values inside `attrs`; what Python
 * does to them in place comes back from ModelSpec as their new value.
 */
module Models {
  import opened Wrappers
  import opened Values
  import opened ModelSpec

  /** The blocking Couchbase bucket: documents by id. */
  class Bucket {
    var docs: map<Value, Doc>

    constructor (docs: map<Value, Doc>)
      ensures this.docs == docs
    {
      this.docs := docs;
    }

    /** `get`: the document, or NotFoundError. */
    method Get(key: Value) returns (r: Result<Doc>)
      ensures key in docs ==> r == Ok(docs[key])
      ensures key !in docs ==> r == Err(NotFound)
    {
      if key in docs {
        r := Ok(docs[key]);
      } else {
        r := Err(NotFound);
      }
    }

    /** `set`: store the document, replacing any previous one. */
    method Set(key: Value, doc: Doc)
      modifies this
      ensures docs == old(docs)[key := doc]
    {
      docs := docs[key := doc];
    }

    /** `add`: store the document unless the key is taken (KeyExistsError). */
    method Add(key: Value, doc: Doc) returns (err: Option<Error>)
      modifies this
      ensures key in old(docs) ==> err == Some(KeyExists) && docs == old(docs)
      ensures key !in old(docs) ==> err == None && docs == old(docs)[key := doc]
    {
      if key in docs {
        err := Some(KeyExists);
      } else {
        docs := docs[key := doc];
        err := None;
      }
    }

    /** `remove`: drop the document, or NotFoundError. */
    method Remove(key: Value) returns (err: Option<Error>)
      modifies this
      ensures docs == old(docs) - {key}
      ensures err == if key in old(docs) then None else Some(NotFound)
    {
      err := if key in docs then None else Some(NotFound);
      docs := docs - {key};
    }
  }

  /** The uuid generator and the clock, read in order through `env`. */
  class Runtime {
    const env: Env
    var drawn: nat
    var ticks: nat

    constructor (env: Env)
      ensures this.env == env && drawn == 0 && ticks == 0
    {
      this.env := env;
      drawn := 0;
      ticks := 0;
    }

    /** `ShortUUIDField().create_uuid()`. */
    method CreateUuid() returns (u: string)
      modifies this
      ensures u == env.uuid(old(drawn)) && drawn == old(drawn) + 1 && ticks == old(ticks)
    {
      u := env.uuid(drawn);
      drawn := drawn + 1;
    }

    /** `timezone.now()`. */
    method Now() returns (t: Timestamp)
      modifies this
      ensures t == env.now(old(ticks)) && ticks == old(ticks) + 1 && drawn == old(drawn)
    {
      t := env.now(ticks);
      ticks := ticks + 1;
    }
  }

  /** The error a `to_dict` result carries, if any. */
  function ErrorOf(r: Result<Doc>): Option<Error>
  {
    if r.Err? then Some(r.error) else None
  }

  /** `attrs` with the attribute `key` set to `a`, when there is one. */
  function Put(attrs: map<string, Value>, key: string, a: Option<Value>): map<string, Value>
  {
    if a.Some? then attrs[key := a.value] else attrs
  }

  class CBModel {
    const meta: Meta
    const db: Bucket
    const rt: Runtime
    var idPrefix: string
    var id: Value
    var attrs: map<string, Value>

    /** Django refuses a model with two fields of one name. */
    ghost predicate Valid()
      reads this
    {
      UniqueNames(meta.fields)
    }

    /** The instance as a value. */
    function State(): Rec
      reads this
    {
      Rec(meta, idPrefix, id, attrs)
    }

    /** The bucket and the number of uuids and clock readings consumed. */
    function Context(): World
      reads db, rt
    {
      World(db.docs, rt.drawn, rt.ticks)
    }

    /** `__init__(**kwargs)` of a model class bound to `db`. */
    constructor (meta: Meta, db: Bucket, rt: Runtime, kwargs: map<string, Value>)
      ensures State() == Init(meta, kwargs) && this.db == db && this.rt == rt
    {
      this.meta := meta;
      this.db := db;
      this.rt := rt;
      var a := map[ChannelsKey := VList([]), RevKey := VNone];
      id := VNone;
      idPrefix := meta.idPrefix;
      var rest := kwargs;
      if PrefixKey in rest {
        if rest[PrefixKey].VStr? {
          idPrefix := rest[PrefixKey].s;
        }
        rest := rest - {PrefixKey};
      }
      if IdKey in rest {
        id := rest[IdKey];
        rest := rest - {IdKey};
      }
      assert rest == kwargs - {PrefixKey, IdKey};
      attrs := a + meta.defaults + CleanKwargs(meta, rest);
    }

    /** Commit the bucket and counters that a value-level step returned. */
    method SetContext(w: World)
      modifies db, rt
      ensures Context() == w
    {
      db.docs := w.docs;
      rt.drawn := w.drawn;
      rt.ticks := w.ticks;
    }

    function IsNew(): (b: bool)
      reads this
      ensures id == VNone || id == VStr("") ==> b
      ensures id.VStr? && id.s != "" ==> !b
    {
      ModelSpec.IsNew(State())
    }

    method GetId() returns (r: Value)
      modifies this, rt
      ensures var g := ModelSpec.GetId(old(State()), rt.env, old(Context()));
              State() == g.rec && r == g.id && Context() == g.world
    {
      if IsNew() {
        var u := rt.CreateUuid();
        id := VStr(idPrefix + "::" + u);
      }
      r := id;
    }

    /** `__eq__`: None for an instance of another class, else whether the two ids agree. */
    method Eq(other: CBModel) returns (r: Option<bool>)
      requires other.rt == rt
      modifies this, other, rt
      ensures other == this ==>
                var g := ModelSpec.GetId(old(State()), rt.env, old(Context()));
                r == Some(true) && State() == g.rec && Context() == g.world
      ensures other != this && other.meta != meta ==>
                r == None && State() == old(State()) && other.State() == old(other.State()) && Context() == old(Context())
      ensures other != this && other.meta == meta ==>
                var ga := ModelSpec.GetId(old(State()), rt.env, old(Context()));
                var gb := ModelSpec.GetId(old(other.State()), rt.env, ga.world);
                r == Some(ga.id == gb.id) && State() == ga.rec && other.State() == gb.rec && Context() == gb.world
    {
      if other.meta != meta {
        return None;
      }
      var a := GetId();
      var b := other.GetId();
      r := Some(a == b);
    }

    method Save() returns (err: Option<Error>)
      requires Valid()
      modifies this, db, rt
      ensures var s := ModelSpec.Save(old(State()), rt.env, old(Context()));
              State() == s.rec && Context() == s.world && err == ErrorOf(s.doc)
    {
      if meta.nested {
        return Some(ModelError);
      }
      ghost var src := State();
      ghost var w0 := Context();
      StampNow();
      ghost var w1 := w0.(ticks := w0.ticks + 1);
      assert ModelSpec.Save(src, rt.env, w0) ==
             var t := ToDictFrom(src, State(), rt.env, w1);
             if t.doc.Err? then t else Saved(t.rec, t.doc, t.world.(docs := t.world.docs[t.rec.id := t.doc.value]));
      var data := EncodeRecord(src);
      if data.Err? {
        return Some(data.error);
      }
      if IsNew() {
        // the `add` branch: `to_dict` has just assigned an id
        assert false;
      }
      db.Set(id, data.value);
      err := None;
    }

    /** The first lines of `save`: `updated` is now, and so is `created` when it is missing or None. */
    method StampNow()
      modifies this, rt
      ensures State() == Stamp(old(State()), rt.env.now(old(rt.ticks)))
      ensures Context() == old(Context()).(ticks := old(Context()).ticks + 1)
    {
      var now := rt.Now();
      attrs := attrs[UpdatedKey := VDate(now)];
      if CreatedKey !in attrs || attrs[CreatedKey] == VNone {
        attrs := attrs[CreatedKey := VDate(now)];
      }
    }

    method ToDict() returns (r: Result<Doc>)
      requires Valid()
      modifies this, db, rt
      ensures var s := ModelSpec.ToDict(old(State()), rt.env, old(Context()));
              State() == s.rec && Context() == s.world && r == s.doc
    {
      ghost var src := State();
      r := EncodeRecord(src);
    }

    /** The body of `to_dict`; `src` is the instance before `save` stamped it. */
    method EncodeRecord(ghost src: Rec) returns (r: Result<Doc>)
      requires Valid() && Derived(src, State())
      modifies this, db, rt
      ensures var s := ToDictFrom(src, old(State()), rt.env, old(Context()));
              State() == s.rec && Context() == s.world && r == s.doc
    {
      var before := State();
      var theId := GetId();
      var d := BaseDict(before, theId);
      ghost var start := State();
      ghost var w1 := Context();
      ghost var d0 := d;
      var fields := meta.fields;
      var i := 0;
      while i < |fields|
        invariant 0 <= i <= |fields| && fields == meta.fields
        invariant EncodeLoop(src, start, i, d, d0, w1)
      {
        var step := EncodeStep(src, start, i, d, d0, w1);
        if step.Err? {
          return step;
        }
        d := step.value;
        i := i + 1;
      }
      r := Ok(d);
    }

    /** What the `to_dict` loop has established before field `i`. */
    ghost predicate EncodeLoop(src: Rec, start: Rec, i: nat, d: Doc, d0: Doc, w1: World)
      reads this, db, rt
    {
      i <= |meta.fields| && Derived(src, start) && State() == start.(attrs := attrs) &&
      (forall j :: i <= j < |meta.fields| ==> Get(attrs, meta.fields[j].name) == Get(start.attrs, meta.fields[j].name)) &&
      EncodeFields(src, start, i, attrs, d, rt.env, Context()) == EncodeFields(src, start, 0, start.attrs, d0, rt.env, w1)
    }

    /** One iteration of the `to_dict` loop: an error ends `to_dict`, a success keeps the loop's invariant. */
    method EncodeStep(ghost src: Rec, ghost start: Rec, i: nat, d: Doc, ghost d0: Doc, ghost w1: World)
      returns (r: Result<Doc>)
      requires Valid() && i < |meta.fields| && EncodeLoop(src, start, i, d, d0, w1)
      modifies this, db, rt
      ensures r.Err? ==>
                var f := EncodeFields(src, start, 0, start.attrs, d0, rt.env, w1);
                State() == start.(attrs := f.attrs) && Context() == f.world && r == f.doc
      ensures r.Ok? ==> EncodeLoop(src, start, i + 1, r.value, d0, w1)
    {
      var fd := meta.fields[i];
      r := EncodeFieldOf(src, fd, d);
      assert forall j :: i < j < |meta.fields| ==> meta.fields[j].name != fd.name;
    }

    /** One iteration of the `to_dict` loop: dispatch on the field's kind. */
    method EncodeFieldOf(ghost src: Rec, fd: Field, d: Doc) returns (r: Result<Doc>)
      requires Below(Get(attrs, fd.name), src)
      modifies this, db, rt
      ensures var e := EncodeField(src, fd, Get(old(attrs), fd.name), d, rt.env, old(Context()));
              r == e.doc && Context() == e.world && State() == old(State()).(attrs := Put(old(attrs), fd.name, e.attr))
    {
      match fd.kind {
        case DateTime =>
          r := Ok(d[fd.name := StringFromDate(Get(attrs, fd.name), rt.env)]);
          if fd.name in attrs {
            assert attrs[fd.name := attrs[fd.name]] == attrs;
          }
        case EmbeddedList(_) => r := ToDictNestedList(src, fd.name, d);
        case ReferenceList => r := ToDictReferenceList(src, fd.name, d);
        case Embedded(_) => r := ToDictNested(src, fd.name, d);
        case Reference => r := ToDictReference(src, fd.name, d);
        case _ =>
          r := Ok(d);
          if fd.name in attrs {
            assert attrs[fd.name := attrs[fd.name]] == attrs;
          }
      }
    }

    method ToDictNested(ghost src: Rec, key: string, d: Doc) returns (r: Result<Doc>)
      requires Below(Get(attrs, key), src)
      modifies this, db, rt
      ensures var e := EncodeNested(src, key, Get(old(attrs), key), d, rt.env, old(Context()));
              r == e.doc && Context() == e.world && State() == old(State()).(attrs := Put(old(attrs), key, e.attr))
    {
      var v := Get(attrs, key);
      if v.Some? && v.value.VRecord? {
        var s := ModelSpec.ToDict(v.value.rec, rt.env, Context());
        attrs := attrs[key := VRecord(s.rec)];
        SetContext(s.world);
        r := if s.doc.Ok? then Ok(d[key := VDict(s.doc.value)]) else s.doc;
      } else {
        r := Err(RuntimeError);
      }
    }

    method ToDictNestedList(ghost src: Rec, key: string, d: Doc) returns (r: Result<Doc>)
      requires Below(Get(attrs, key), src)
      modifies this, db, rt
      ensures var e := EncodeNestedList(src, key, Get(old(attrs), key), d, rt.env, old(Context()));
              r == e.doc && Context() == e.world && State() == old(State()).(attrs := Put(old(attrs), key, e.attr))
    {
      var v := Get(attrs, key);
      if v.None? {
        return Err(RuntimeError);
      }
      if !v.value.VList? {
        r := if EmptyIterable(v.value) then Ok(d[key := VList([])]) else Err(RuntimeError);
        assert attrs[key := v.value] == attrs;
        return;
      }
      var items := v.value.items;
      ghost var w0 := Context();
      var done: seq<Value> := [];
      var out: seq<Value> := [];
      var k := 0;
      while k < |items|
        invariant 0 <= k <= |items| && |done| == k
        invariant State() == old(State())
        invariant EncodeEach(src, items, k, done, out, rt.env, Context()) == EncodeEach(src, items, 0, [], [], rt.env, w0)
      {
        var x := items[k];
        if !x.VRecord? {
          attrs := attrs[key := VList(done + items[k..])];
          return Err(RuntimeError);
        }
        var s := ModelSpec.ToDict(x.rec, rt.env, Context());
        SetContext(s.world);
        if s.doc.Err? {
          attrs := attrs[key := VList(done + [VRecord(s.rec)] + items[k + 1..])];
          return Err(s.doc.error);
        }
        done := done + [VRecord(s.rec)];
        out := out + [VDict(s.doc.value)];
        k := k + 1;
      }
      attrs := attrs[key := VList(done)];
      r := Ok(d[key := VList(out)]);
    }

    method ToDictReference(ghost src: Rec, key: string, d: Doc) returns (r: Result<Doc>)
      requires Below(Get(attrs, key), src)
      modifies this, db, rt
      ensures var e := EncodeReference(src, key, Get(old(attrs), key), d, rt.env, old(Context()));
              r == e.doc && Context() == e.world && State() == old(State()).(attrs := Put(old(attrs), key, e.attr))
    {
      var v := Get(attrs, key);
      if v.None? {
        return Err(RuntimeError);
      }
      if Keep(v.value) {
        if !v.value.VRecord? {
          assert attrs[key := v.value] == attrs;
          return Err(RuntimeError);
        }
        var s := ModelSpec.Save(v.value.rec, rt.env, Context());
        attrs := attrs[key := VRecord(s.rec)];
        SetContext(s.world);
        r := if s.doc.Ok? then Ok(d[key := s.rec.id]) else s.doc;
      } else {
        assert attrs[key := v.value] == attrs;
        r := Ok(d);
      }
    }

    method ToDictReferenceList(ghost src: Rec, key: string, d: Doc) returns (r: Result<Doc>)
      requires Below(Get(attrs, key), src)
      modifies this, db, rt
      ensures var e := EncodeReferenceList(src, key, Get(old(attrs), key), d, rt.env, old(Context()));
              r == e.doc && Context() == e.world && State() == old(State()).(attrs := Put(old(attrs), key, e.attr))
    {
      var v := Get(attrs, key);
      if v.None? {
        return Err(RuntimeError);
      }
      if !(v.value.VList? && |v.value.items| > 0) {
        assert attrs[key := v.value] == attrs;
        return Ok(d[key := VList([])]);
      }
      var items := v.value.items;
      ghost var w0 := Context();
      var done: seq<Value> := [];
      var idArr: seq<Value> := [];
      var k := 0;
      while k < |items|
        invariant 0 <= k <= |items| && |done| == k
        invariant State() == old(State())
        invariant SaveEach(src, items, k, done, idArr, rt.env, Context()) == SaveEach(src, items, 0, [], [], rt.env, w0)
      {
        var x := items[k];
        if Keep(x) {
          if !x.VRecord? {
            attrs := attrs[key := VList(done + items[k..])];
            return Err(RuntimeError);
          }
          var s := ModelSpec.Save(x.rec, rt.env, Context());
          SetContext(s.world);
          if s.doc.Err? {
            attrs := attrs[key := VList(done + [VRecord(s.rec)] + items[k + 1..])];
            return Err(s.doc.error);
          }
          done := done + [VRecord(s.rec)];
          idArr := idArr + [s.rec.id];
        } else {
          done := done + [x];
        }
        k := k + 1;
      }
      attrs := attrs[key := VList(done)];
      r := Ok(d[key := VList(idArr)]);
    }

    method ToDictPartialReference(key: string, d: Doc, links: seq<(string, string)>) returns (r: Result<Doc>)
      modifies this, db, rt
      ensures var e := EncodePartialReference(key, Get(old(attrs), key), d, links, rt.env, old(Context()));
              r == e.doc && Context() == e.world && State() == old(State()).(attrs := Put(old(attrs), key, e.attr))
    {
      var v := Get(attrs, key);
      if v.None? {
        return Err(RuntimeError);
      }
      if !Keep(v.value) {
        assert attrs[key := v.value] == attrs;
        return Ok(d);
      }
      if !v.value.VRecord? {
        assert attrs[key := v.value] == attrs;
        return Err(RuntimeError);
      }
      var s := ModelSpec.Save(v.value.rec, rt.env, Context());
      attrs := attrs[key := VRecord(s.rec)];
      SetContext(s.world);
      if s.doc.Err? {
        return s.doc;
      }
      var c := s.rec;
      var out := d[key := c.id];
      ghost var out0 := out;
      var j := 0;
      while j < |links|
        invariant 0 <= j <= |links|
        invariant CopyLinks(c, out, links, j) == CopyLinks(c, out0, links, 0)
      {
        var a := AttrOf(c, links[j].1);
        if a.None? {
          return Err(RuntimeError);
        }
        out := out[links[j].0 := a.value];
        j := j + 1;
      }
      r := Ok(out);
    }

    method FromDict(p: Doc) returns (err: Option<Error>)
      modifies this
      ensures var o := ModelSpec.FromDict(old(State()), p, rt.env);
              State() == o.rec && err == o.err
    {
      var fields := meta.fields;
      var i := 0;
      while i < |fields|
        invariant 0 <= i <= |fields|
        invariant DecodeFields(State(), i, p, rt.env) == DecodeFields(old(State()), 0, p, rt.env)
        invariant State().idPrefix == old(idPrefix) && State().id == old(id)
      {
        var fd := fields[i];
        if fd.name in p {
          match fd.kind {
            case Embedded(m) =>
              var e := FromDictNested(fd.name, m, p);
              if e.Some? {
                return e;
              }
            case EmbeddedList(m) =>
              var e := FromDictNestedList(fd.name, m, p);
              if e.Some? {
                return e;
              }
            case ReferenceList =>
            case PlainList =>
            case DateTime => DateFromString(fd.name, p[fd.name]);
            case Decimal => DecimalFromString(fd.name, p[fd.name]);
            case _ => attrs := attrs[fd.name := p[fd.name]];
          }
        }
        i := i + 1;
      }
      if IdKey in p {
        id := p[IdKey];
      }
      err := None;
    }

    /** `_date_from_string`: the attribute becomes the parsed date, or the raw value when parsing raised. */
    method DateFromString(name: string, val: Value)
      modifies this
      ensures State() == old(State()).(attrs := old(attrs)[name := DateOrRaw(val, rt.env)])
    {
      attrs := attrs[name := DateOrRaw(val, rt.env)];
    }

    /** `_decimal_from_string`: the attribute becomes the decimal, or the raw value when `Decimal` raised. */
    method DecimalFromString(name: string, val: Value)
      modifies this
      ensures State() == old(State()).(attrs := old(attrs)[name := DecimalOrRaw(val, rt.env)])
    {
      attrs := attrs[name := DecimalOrRaw(val, rt.env)];
    }

    method FromDictNested(key: string, m: Meta, p: Doc) returns (err: Option<Error>)
      modifies this
      ensures var o := ModelSpec.FromDictNested(old(State()), key, m, p, rt.env);
              State() == o.rec && err == o.err
    {
      if key in p {
        var item := DecodeNested(m, p[key], rt.env);
        if item.Err? {
          return Some(item.error);
        }
        attrs := attrs[key := VRecord(item.value)];
      }
      err := None;
    }

    method FromDictNestedList(key: string, m: Meta, p: Doc) returns (err: Option<Error>)
      modifies this
      ensures var o := ModelSpec.FromDictNestedList(old(State()), key, m, p, rt.env);
              State() == o.rec && err == o.err
    {
      attrs := attrs[key := VList([])];
      if key !in p {
        return None;
      }
      var v := p[key];
      if !v.VList? {
        return if EmptyIterable(v) then None else Some(RuntimeError);
      }
      var items := v.items;
      var nested: seq<Value> := [];
      var k := 0;
      ghost var a0 := old(attrs);
      ghost var whole := DecodeEach(m, items, 0, [], rt.env);
      while k < |items|
        invariant 0 <= k <= |items|
        invariant idPrefix == old(idPrefix) && id == old(id) && attrs == a0[key := VList(nested)]
        invariant DecodeEach(m, items, k, nested, rt.env) == whole
      {
        var item := DecodeNested(m, items[k], rt.env);
        if item.Err? {
          assert DecodeEach(m, items, k, nested, rt.env) == ListDecoded(nested, Some(item.error));
          return Some(item.error);
        }
        assert DecodeEach(m, items, k, nested, rt.env) == DecodeEach(m, items, k + 1, nested + [VRecord(item.value)], rt.env);
        nested := nested + [VRecord(item.value)];
        attrs := attrs[key := VList(nested)];
        k := k + 1;
      }
      assert DecodeEach(m, items, k, nested, rt.env) == ListDecoded(nested, None);
      err := None;
    }

    method FromRow(key: Value, value: Doc) returns (err: Option<Error>)
      modifies this
      ensures var o := ModelSpec.FromRow(old(State()), key, value, rt.env);
              State() == o.rec && err == o.err
    {
      err := FromDict(value);
      if err.None? {
        id := key;
      }
    }

    method Load(key: Value) returns (err: Option<Error>)
      modifies this
      ensures var o := ModelSpec.Load(old(State()), key, db.docs, rt.env);
              State() == o.rec && err == o.err
    {
      if meta.nested {
        return Some(ModelError);
      }
      var doc := db.Get(key);
      if doc.Err? {
        return Some(NotFound);
      }
      var e := FromRow(key, doc.value);
      err := if e.Some? then Some(NotFound) else None;
    }

    /** `delete`: remove the document under the id; a missing one is swallowed and reported. */
    method Delete() returns (missing: bool)
      modifies db
      ensures db.docs == old(db.docs) - {id}
      ensures missing <==> id !in old(db.docs)
    {
      var e := db.Remove(id);
      missing := e.Some?;
    }

    method AppendToReferencesList(key: string, value: Value)
      modifies this
      ensures State() == old(State()).(attrs := old(attrs)[key := VList(AppendUnique(AsList(Get(old(attrs), key)), value))])
    {
      var v := AsList(Get(attrs, key));
      if value !in v {
        v := v + [value];
      }
      attrs := attrs[key := VList(v)];
    }

    function GetReferencesList(key: string): (v: seq<Value>)
      reads this
      ensures key in attrs && attrs[key].VList? ==> v == attrs[key].items
      ensures !(key in attrs && attrs[key].VList?) ==> v == []
    {
      AsList(Get(attrs, key))
    }

    method DeleteFromReferencesList(key: string, value: Value)
      modifies this
      ensures State() == old(State()).(attrs := old(attrs)[key := VList(RemoveFirst(AsList(Get(old(attrs), key)), value))])
    {
      var v := AsList(Get(attrs, key));
      if value in v {
        v := RemoveFirst(v, value);
      }
      attrs := attrs[key := VList(v)];
    }

    function GetDocType(): (t: string)
      ensures meta.docType.Some? && meta.docType.value != "" ==> t == meta.docType.value
      ensures !(meta.docType.Some? && meta.docType.value != "") ==> t == Lower(meta.className)
    {
      DocType(meta)
    }
  }
}
