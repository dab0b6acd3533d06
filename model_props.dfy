/**
 * Properties of the record codec in ModelSpec: the shape of every `to_dict`
 * output, what `save` writes, the reference helpers, the merge semantics of
 * `from_dict`, and the round trip of a record with plain fields.
 */
module ModelProperties {
  import opened Wrappers
  import opened Values
  import opened ModelSpec

  /** `a` and `b` have the same entries outside the key set `s`. */
  ghost predicate AgreeOutside(a: map<string, Value>, b: map<string, Value>, s: set<string>)
  {
    forall k :: k !in s ==> (k in a <==> k in b) && (k in a ==> a[k] == b[k])
  }

  lemma MinusAgree(a: map<string, Value>, b: map<string, Value>, n: string)
    requires a - {n} == b - {n}
    ensures AgreeOutside(a, b, {n})
  {
    forall k | k !in {n}
      ensures (k in a <==> k in b) && (k in a ==> a[k] == b[k])
    {
      assert k in a <==> k in a - {n};
      assert k in b <==> k in b - {n};
      if k in a {
        assert (a - {n})[k] == a[k];
      }
    }
  }

  // ------------------------------------------------------------ to_dict shape

  /** The names of the fields from `i` on that the `to_dict` loop rewrites. */
  function RewrittenNames(fs: seq<Field>, i: nat): (names: set<string>)
    ensures forall j :: i <= j < |fs| && Rewritten(fs[j].kind) ==> fs[j].name in names
    ensures forall n :: n in names ==> exists j :: i <= j < |fs| && Rewritten(fs[j].kind) && fs[j].name == n
  {
    set j | i <= j < |fs| && Rewritten(fs[j].kind) :: fs[j].name
  }

  /** The `to_dict` loop touches only the entries of the fields it rewrites. */
  lemma {:induction false} EncodeFieldsFrame(src: Rec, start: Rec, i: nat, attrs: map<string, Value>, d: Doc,
                                             env: Env, w: World)
    requires Derived(src, start) && i <= |start.meta.fields|
    ensures var f := EncodeFields(src, start, i, attrs, d, env, w);
            f.doc.Ok? ==> AgreeOutside(f.doc.value, d, RewrittenNames(start.meta.fields, i))
    decreases |start.meta.fields| - i
  {
    var fs := start.meta.fields;
    if i < |fs| {
      var fd := fs[i];
      var e := EncodeField(src, fd, Get(start.attrs, fd.name), d, env, w);
      var attrs' := if e.attr.Some? then attrs[fd.name := e.attr.value] else attrs;
      if e.doc.Ok? {
        EncodeFieldsFrame(src, start, i + 1, attrs', e.doc.value, env, e.world);
        MinusAgree(e.doc.value, d, fd.name);
        assert RewrittenNames(fs, i + 1) <= RewrittenNames(fs, i);
        if Rewritten(fd.kind) {
          assert fd.name in RewrittenNames(fs, i);
        }
      }
    }
  }

  /** No rewritten field is named like one of the keys `to_dict` itself writes or deletes. */
  ghost predicate ReservedFree(m: Meta)
  {
    forall j :: 0 <= j < |m.fields| && Rewritten(m.fields[j].kind) ==>
      m.fields[j].name != DocTypeKey && m.fields[j].name != IdKey &&
      m.fields[j].name != SyncPtrKey && m.fields[j].name != CsrfKey
  }

  /**
   * Every `to_dict` output carries the document type and the record's id,
   * never the two form keys, and the value of every field that the loop
   * does not rewrite.
   */
  lemma ToDictFromShape(src: Rec, r: Rec, env: Env, w: World)
    requires Derived(src, r) && ReservedFree(r.meta)
    ensures var s := ToDictFrom(src, r, env, w);
            s.doc.Ok? ==>
              var doc := s.doc.value;
              DocTypeKey in doc && doc[DocTypeKey] == VStr(DocType(r.meta)) &&
              IdKey in doc && doc[IdKey] == s.rec.id && s.rec.id == GetId(r, env, w).id &&
              SyncPtrKey !in doc && CsrfKey !in doc &&
              forall k :: k in FieldNames(r.meta.fields) && k in r.attrs && k !in RewrittenNames(r.meta.fields, 0) &&
                          k != DocTypeKey && k != IdKey && k != SyncPtrKey && k != CsrfKey ==>
                            k in doc && doc[k] == r.attrs[k]
  {
    var g := GetId(r, env, w);
    var base := BaseDict(r, g.id);
    var f := EncodeFields(src, g.rec, 0, g.rec.attrs, base, env, g.world);
    var s := ToDictFrom(src, r, env, w);
    assert s.doc == f.doc && s.rec.id == g.id;
    if f.doc.Ok? {
      EncodeFieldsFrame(src, g.rec, 0, g.rec.attrs, base, env, g.world);
      var names := RewrittenNames(r.meta.fields, 0);
      assert DocTypeKey !in names && IdKey !in names && SyncPtrKey !in names && CsrfKey !in names;
      assert AgreeOutside(f.doc.value, base, names);
    }
  }

  /** The same for `to_dict` called directly. */
  lemma ToDictShape(r: Rec, env: Env, w: World)
    requires ReservedFree(r.meta)
    ensures var s := ToDict(r, env, w);
            s.doc.Ok? ==>
              var doc := s.doc.value;
              DocTypeKey in doc && doc[DocTypeKey] == VStr(DocType(r.meta)) &&
              IdKey in doc && doc[IdKey] == s.rec.id && s.rec.id == GetId(r, env, w).id &&
              SyncPtrKey !in doc && CsrfKey !in doc
  {
    ToDictFromShape(r, r, env, w);
  }

  /** A datetime field's entry is `_string_from_date` of the value the loop read at its start. */
  lemma {:induction false} EncodeFieldsDate(src: Rec, start: Rec, i: nat, attrs: map<string, Value>, d: Doc,
                                            env: Env, w: World, j: nat)
    requires Derived(src, start) && UniqueNames(start.meta.fields)
    requires i <= j < |start.meta.fields| && start.meta.fields[j].kind == DateTime
    ensures var f := EncodeFields(src, start, i, attrs, d, env, w);
            var n := start.meta.fields[j].name;
            f.doc.Ok? ==> n in f.doc.value && f.doc.value[n] == StringFromDate(Get(start.attrs, n), env)
    decreases j - i
  {
    var fs := start.meta.fields;
    var fd := fs[i];
    var e := EncodeField(src, fd, Get(start.attrs, fd.name), d, env, w);
    var attrs' := if e.attr.Some? then attrs[fd.name := e.attr.value] else attrs;
    if e.doc.Ok? {
      if i == j {
        EncodeFieldsFrame(src, start, i + 1, attrs', e.doc.value, env, e.world);
        assert fd.name !in RewrittenNames(fs, i + 1);
      } else {
        EncodeFieldsDate(src, start, i + 1, attrs', e.doc.value, env, e.world, j);
      }
    }
  }

  // ---------------------------------------------------------- nested lists

  /** The bucket and counters when the `to_dict_nested_list` loop, started at element `k` in `w`, reaches element `j`. */
  function WorldBefore(items: seq<Value>, k: nat, j: nat, env: Env, w: World): World
    requires k <= j <= |items|
    decreases j - k
  {
    if j == k || !items[k].VRecord? then w
    else WorldBefore(items, k + 1, j, env, ToDict(items[k].rec, env, w).world)
  }

  /** The `to_dict` call the loop makes on element `j`. */
  function EachToDict(items: seq<Value>, k: nat, j: nat, env: Env, w: World): Saved
    requires k <= j < |items| && items[j].VRecord?
  {
    ToDict(items[j].rec, env, WorldBefore(items, k, j, env, w))
  }

  /** After a successful element the loop goes on from the next one, and the later calls see the same worlds. */
  lemma EncodeEachStep(src: Rec, items: seq<Value>, k: nat, done: seq<Value>, docs: seq<Value>, env: Env, w: World)
    requires VList(items) < src && k < |items| && |done| == k && items[k].VRecord?
    requires ToDict(items[k].rec, env, w).doc.Ok?
    ensures var s := ToDict(items[k].rec, env, w);
            EachToDict(items, k, k, env, w) == s &&
            EncodeEach(src, items, k, done, docs, env, w) ==
              EncodeEach(src, items, k + 1, done + [VRecord(s.rec)], docs + [VDict(s.doc.value)], env, s.world) &&
            forall j :: k < j < |items| && items[j].VRecord? ==> EachToDict(items, k, j, env, w) == EachToDict(items, k + 1, j, env, s.world)
  {
    var s := ToDict(items[k].rec, env, w);
    forall j | k < j < |items| && items[j].VRecord?
      ensures EachToDict(items, k, j, env, w) == EachToDict(items, k + 1, j, env, s.world)
    {
      assert WorldBefore(items, k, j, env, w) == WorldBefore(items, k + 1, j, env, s.world);
    }
  }

  /** The loop of `to_dict_nested_list` succeeds exactly when every element from `k` on is an instance whose `to_dict` succeeds. */
  lemma {:induction false} EncodeEachSucceeds(src: Rec, items: seq<Value>, k: nat, done: seq<Value>, docs: seq<Value>,
                                              env: Env, w: World)
    requires VList(items) < src && k <= |items| && |done| == k
    ensures EncodeEach(src, items, k, done, docs, env, w).out.Ok? <==>
            forall j :: k <= j < |items| ==> items[j].VRecord? && EachToDict(items, k, j, env, w).doc.Ok?
    decreases |items| - k
  {
    if k < |items| && items[k].VRecord? {
      var s := ToDict(items[k].rec, env, w);
      assert EachToDict(items, k, k, env, w) == s;
      if s.doc.Ok? {
        EncodeEachStep(src, items, k, done, docs, env, w);
        EncodeEachSucceeds(src, items, k + 1, done + [VRecord(s.rec)], docs + [VDict(s.doc.value)], env, s.world);
      }
    }
  }

  /** Element `j` of the loop became `item` and gave the document `out`: its `to_dict` succeeded. */
  ghost predicate EachDone(items: seq<Value>, k: nat, j: nat, env: Env, w: World, out: Value, item: Value)
    requires k <= j < |items|
  {
    items[j].VRecord? &&
    var s := EachToDict(items, k, j, env, w);
    s.doc.Ok? && out == VDict(s.doc.value) && item == VRecord(s.rec)
  }

  /** What the loop has done from element `k + 1` on, after element `k` succeeded, is what it has done from `k` on. */
  lemma EachDoneExtend(items: seq<Value>, k: nat, env: Env, w: World, done: seq<Value>, docs: seq<Value>,
                       out: seq<Value>, after: seq<Value>)
    requires k < |items| && items[k].VRecord? && ToDict(items[k].rec, env, w).doc.Ok? && |done| == k
    requires var s := ToDict(items[k].rec, env, w);
             |after| == |items| && |out| == |docs| + |items| - k &&
             out[..|docs| + 1] == docs + [VDict(s.doc.value)] && after[..k + 1] == done + [VRecord(s.rec)] &&
             forall j :: k + 1 <= j < |items| ==> EachDone(items, k + 1, j, env, s.world, out[|docs| + 1 + j - (k + 1)], after[j])
    ensures out[..|docs|] == docs && after[..k] == done
    ensures forall j :: k <= j < |items| ==> EachDone(items, k, j, env, w, out[|docs| + j - k], after[j])
  {
    var s := ToDict(items[k].rec, env, w);
    assert out[..|docs|] == out[..|docs| + 1][..|docs|];
    assert after[..k] == after[..k + 1][..k];
    forall j | k <= j < |items| ensures EachDone(items, k, j, env, w, out[|docs| + j - k], after[j]) {
      if j == k {
        assert EachToDict(items, k, k, env, w) == s;
        assert out[|docs|] == out[..|docs| + 1][|docs|];
        assert after[k] == after[..k + 1][k];
      } else {
        assert WorldBefore(items, k, j, env, w) == WorldBefore(items, k + 1, j, env, s.world);
        assert EachDone(items, k + 1, j, env, s.world, out[|docs| + 1 + j - (k + 1)], after[j]);
      }
    }
  }

  /**
   * The loop of `to_dict_nested_list`, from element `k` on: on success it has
   * appended one `to_dict` document per element, in order, and each element is
   * the instance its `to_dict` left behind.
   */
  lemma {:induction false} EncodeEachSpec(src: Rec, items: seq<Value>, k: nat, done: seq<Value>, docs: seq<Value>,
                                          env: Env, w: World)
    requires VList(items) < src && k <= |items| && |done| == k
    ensures var l := EncodeEach(src, items, k, done, docs, env, w);
            l.out.Ok? ==>
              |l.out.value| == |docs| + |items| - k && l.out.value[..|docs|] == docs && l.items[..k] == done &&
              forall j :: k <= j < |items| ==> EachDone(items, k, j, env, w, l.out.value[|docs| + j - k], l.items[j])
    decreases |items| - k
  {
    if k == |items| {
      assert EncodeEach(src, items, k, done, docs, env, w).out == Ok(docs);
    } else if items[k].VRecord? && ToDict(items[k].rec, env, w).doc.Ok? {
      var s := ToDict(items[k].rec, env, w);
      var done' := done + [VRecord(s.rec)];
      var docs' := docs + [VDict(s.doc.value)];
      EncodeEachStep(src, items, k, done, docs, env, w);
      EncodeEachSpec(src, items, k + 1, done', docs', env, s.world);
      var l := EncodeEach(src, items, k + 1, done', docs', env, s.world);
      if l.out.Ok? {
        EachDoneExtend(items, k, env, w, done, docs, l.out.value, l.items);
      }
    } else {
      assert EncodeEach(src, items, k, done, docs, env, w).out.Err?;
    }
  }

  /**
   * `to_dict_nested_list`: a list gives one `to_dict` document per element, in
   * order, and each element becomes the instance its `to_dict` left behind; an
   * empty string or dict gives `[]`; anything else raises.
   */
  lemma NestedListDocs(src: Rec, key: string, v: Option<Value>, d: Doc, env: Env, w: World)
    requires Below(v, src)
    ensures var e := EncodeNestedList(src, key, v, d, env, w);
            (v.None? ==> e.doc.Err?) &&
            (v.Some? && !v.value.VList? && EmptyIterable(v.value) ==> e == Encoded(v, Ok(d[key := VList([])]), w)) &&
            (v.Some? && !v.value.VList? && !EmptyIterable(v.value) ==> e.doc.Err?) &&
            (v.Some? && v.value.VList? ==>
               var items := v.value.items;
               (e.doc.Ok? <==> forall j :: 0 <= j < |items| ==> items[j].VRecord? && EachToDict(items, 0, j, env, w).doc.Ok?) &&
               (e.doc.Ok? ==>
                  key in e.doc.value && e.doc.value[key].VList? && |e.doc.value[key].items| == |items| &&
                  e.attr.Some? && e.attr.value.VList? && |e.attr.value.items| == |items| &&
                  forall j :: 0 <= j < |items| ==>
                    e.doc.value[key].items[j] == VDict(EachToDict(items, 0, j, env, w).doc.value) &&
                    e.attr.value.items[j] == VRecord(EachToDict(items, 0, j, env, w).rec)))
  {
    if v.Some? && v.value.VList? {
      var items := v.value.items;
      EncodeEachSucceeds(src, items, 0, [], [], env, w);
      EncodeEachSpec(src, items, 0, [], [], env, w);
      var l := EncodeEach(src, items, 0, [], [], env, w);
      if l.out.Ok? {
        forall j | 0 <= j < |items|
          ensures l.out.value[j] == VDict(EachToDict(items, 0, j, env, w).doc.value)
          ensures l.items[j] == VRecord(EachToDict(items, 0, j, env, w).rec)
        {
          assert EachDone(items, 0, j, env, w, l.out.value[j], l.items[j]);
        }
      }
    }
  }

  // -------------------------------------------------------------------- save

  /** The clock reading and the record `save` hands to `to_dict`. */
  function Stamped(r: Rec, env: Env, w: World): Rec
  {
    Stamp(r, env.now(w.ticks))
  }

  /**
   * `save` writes exactly the document `to_dict` built, with `set`, under the
   * id `get_id` assigned; the add branch is never taken, so a record whose id
   * is already in the bucket is overwritten rather than refused.
   */
  lemma SaveAlwaysSets(r: Rec, env: Env, w: World)
    requires !r.meta.nested
    ensures var s := Save(r, env, w);
            var t := ToDictFrom(r, Stamped(r, env, w), env, w.(ticks := w.ticks + 1));
            s.rec == t.rec && s.doc == t.doc &&
            (t.doc.Ok? ==> s.world == t.world.(docs := t.world.docs[t.rec.id := t.doc.value])) &&
            (t.doc.Err? ==> s.world == t.world)
  {
  }

  /** A datetime field of a saved document is `_string_from_date` of the stamped attribute. */
  lemma SaveDateField(r: Rec, env: Env, w: World, j: nat)
    requires !r.meta.nested && UniqueNames(r.meta.fields)
    requires j < |r.meta.fields| && r.meta.fields[j].kind == DateTime
    ensures var s := Save(r, env, w);
            var n := r.meta.fields[j].name;
            s.doc.Ok? ==> n in s.doc.value && s.doc.value[n] == StringFromDate(Get(Stamped(r, env, w).attrs, n), env)
  {
    var r1 := Stamped(r, env, w);
    var w1 := w.(ticks := w.ticks + 1);
    var g := GetId(r1, env, w1);
    SaveAlwaysSets(r, env, w);
    EncodeFieldsDate(r, g.rec, 0, g.rec.attrs, BaseDict(r1, g.id), env, g.world, j);
  }

  /**
   * When `updated` and `created` are datetime fields, the saved document holds
   * the new clock reading as `updated`, and as `created` too unless `created`
   * was already set.
   */
  lemma SaveStampsDates(r: Rec, env: Env, w: World)
    requires !r.meta.nested && UniqueNames(r.meta.fields)
    requires Field(UpdatedKey, DateTime) in r.meta.fields && Field(CreatedKey, DateTime) in r.meta.fields
    ensures var s := Save(r, env, w);
            var now := VStr(env.isoformat(env.now(w.ticks)));
            s.doc.Ok? ==>
              UpdatedKey in s.doc.value && s.doc.value[UpdatedKey] == now &&
              CreatedKey in s.doc.value &&
              (CreatedKey !in r.attrs || r.attrs[CreatedKey] == VNone ==> s.doc.value[CreatedKey] == now) &&
              (CreatedKey in r.attrs && r.attrs[CreatedKey] != VNone ==>
                 s.doc.value[CreatedKey] == StringFromDate(Some(r.attrs[CreatedKey]), env))
  {
    var fs := r.meta.fields;
    var ju :| 0 <= ju < |fs| && fs[ju] == Field(UpdatedKey, DateTime);
    var jc :| 0 <= jc < |fs| && fs[jc] == Field(CreatedKey, DateTime);
    SaveDateField(r, env, w, ju);
    SaveDateField(r, env, w, jc);
  }

  /** `CBNestedModel.save` and `CBNestedModel.load` always raise and change nothing. */
  lemma NestedRefusesPersistence(r: Rec, key: Value, env: Env, w: World)
    requires r.meta.nested
    ensures Save(r, env, w) == Saved(r, Err(ModelError), w)
    ensures Load(r, key, w.docs, env) == Decoded(r, Some(ModelError))
  {
  }

  // -------------------------------------------------------------- references

  /** A referent that `to_dict_reference` and `to_dict_partial_reference` leave alone changes nothing. */
  lemma ReferenceSkipsFalsyAndStrings(src: Rec, key: string, x: Value, d: Doc, links: seq<(string, string)>,
                                      env: Env, w: World)
    requires Below(Some(x), src) && (!Truthy(x) || x.VStr?)
    ensures EncodeReference(src, key, Some(x), d, env, w) == Encoded(Some(x), Ok(d), w)
    ensures EncodePartialReference(key, Some(x), d, links, env, w) == Encoded(Some(x), Ok(d), w)
  {
  }

  /** The destinations of the links are distinct (they are the keys of a dict). */
  predicate DistinctDestinations(links: seq<(string, string)>)
  {
    forall i, j :: 0 <= i < j < |links| ==> links[i].0 != links[j].0
  }

  /** The set of link destinations from index `j` on. */
  function Destinations(links: seq<(string, string)>, j: nat): (s: set<string>)
    ensures forall i :: j <= i < |links| ==> links[i].0 in s
    ensures forall k :: k in s ==> exists i :: j <= i < |links| && links[i].0 == k
  {
    set i | j <= i < |links| :: links[i].0
  }

  /**
   * The link loop succeeds exactly when the referent has every linked
   * attribute; it then copies each one to its destination and leaves every
   * other entry as it was.
   */
  lemma {:induction false} CopyLinksSpec(c: Rec, d: Doc, links: seq<(string, string)>, j: nat)
    requires j <= |links| && DistinctDestinations(links)
    ensures var r := CopyLinks(c, d, links, j);
            (r.Ok? <==> forall i :: j <= i < |links| ==> AttrOf(c, links[i].1).Some?) &&
            (r.Ok? ==> AgreeOutside(r.value, d, Destinations(links, j)) &&
                       forall i :: j <= i < |links| ==> links[i].0 in r.value && r.value[links[i].0] == AttrOf(c, links[i].1).value)
    decreases |links| - j
  {
    if j < |links| {
      var a := AttrOf(c, links[j].1);
      if a.Some? {
        var d' := d[links[j].0 := a.value];
        CopyLinksSpec(c, d', links, j + 1);
        var r := CopyLinks(c, d', links, j + 1);
        if r.Ok? {
          assert links[j].0 !in Destinations(links, j + 1);
        }
      }
    }
  }

  /** The id a saved referent left in the list, None for anything else. */
  function IdOf(v: Value): Value
  {
    if v.VRecord? then v.rec.id else VNone
  }

  /**
   * The reference definition of `id_arr`: the ids, after their save, of the
   * kept (truthy, non-string) elements, in list order.
   */
  function KeptIds(items: seq<Value>, saved: seq<Value>): (ids: seq<Value>)
    requires |items| == |saved|
    ensures |ids| <= |items|
    ensures (forall j :: 0 <= j < |items| ==> Keep(items[j])) ==> |ids| == |items|
    ensures (forall j :: 0 <= j < |items| ==> !Keep(items[j])) ==> ids == []
  {
    if items == [] then []
    else (if Keep(items[0]) then [IdOf(saved[0])] else []) + KeptIds(items[1..], saved[1..])
  }

  lemma {:induction false} KeptIdsSnoc(items: seq<Value>, saved: seq<Value>, x: Value, y: Value)
    requires |items| == |saved|
    ensures KeptIds(items + [x], saved + [y]) == KeptIds(items, saved) + (if Keep(x) then [IdOf(y)] else [])
  {
    if items == [] {
      assert items + [x] == [x] && saved + [y] == [y];
    } else {
      assert (items + [x])[1..] == items[1..] + [x];
      assert (saved + [y])[1..] == saved[1..] + [y];
      KeptIdsSnoc(items[1..], saved[1..], x, y);
    }
  }

  /** A kept element after the loop: a record with an id that is in the bucket. */
  ghost predicate Persisted(v: Value, w: World)
  {
    v.VRecord? && !IsNew(v.rec) && v.rec.id in w.docs
  }

  /** What the `to_dict_reference_list` loop has established after `k` elements. */
  ghost predicate SaveEachInv(items: seq<Value>, k: nat, done: seq<Value>, ids: seq<Value>, w: World)
  {
    k <= |items| && |done| == k &&
    (forall j :: 0 <= j < k && !Keep(items[j]) ==> done[j] == items[j]) &&
    (forall j :: 0 <= j < k && Keep(items[j]) ==> Persisted(done[j], w)) &&
    ids == KeptIds(items[..k], done)
  }

  lemma SaveEachInvKept(items: seq<Value>, k: nat, done: seq<Value>, ids: seq<Value>, w: World, c: Rec, w': World)
    requires SaveEachInv(items, k, done, ids, w) && k < |items| && Keep(items[k])
    requires Grows(w, w') && !IsNew(c) && c.id in w'.docs
    ensures SaveEachInv(items, k + 1, done + [VRecord(c)], ids + [c.id], w')
  {
    KeptIdsSnoc(items[..k], done, items[k], VRecord(c));
    assert items[..k + 1] == items[..k] + [items[k]];
    var done' := done + [VRecord(c)];
    forall j | 0 <= j < k + 1 && !Keep(items[j]) ensures done'[j] == items[j] {
      assert j < k && done'[j] == done[j];
    }
    forall j | 0 <= j < k + 1 && Keep(items[j]) ensures Persisted(done'[j], w') {
      if j < k {
        assert done'[j] == done[j] && Persisted(done[j], w);
      }
    }
  }

  lemma SaveEachInvSkipped(items: seq<Value>, k: nat, done: seq<Value>, ids: seq<Value>, w: World)
    requires SaveEachInv(items, k, done, ids, w) && k < |items| && !Keep(items[k])
    ensures SaveEachInv(items, k + 1, done + [items[k]], ids, w)
  {
    var done' := done + [items[k]];
    KeptIdsSnoc(items[..k], done, items[k], items[k]);
    assert items[..k + 1] == items[..k] + [items[k]];
    forall j | 0 <= j < k + 1 && !Keep(items[j]) ensures done'[j] == items[j] {
      if j < k {
        assert done'[j] == done[j];
      }
    }
    forall j | 0 <= j < k + 1 && Keep(items[j]) ensures Persisted(done'[j], w) {
      assert j < k && done'[j] == done[j];
    }
  }

  /** A loop stopped by an error at kept element `k` leaves the skipped elements as they were. */
  lemma StoppedKeepsSkipped(items: seq<Value>, k: nat, done: seq<Value>, y: Value)
    requires k < |items| && |done| == k && Keep(items[k])
    requires forall j :: 0 <= j < k && !Keep(items[j]) ==> done[j] == items[j]
    ensures var out := done + [y] + items[k + 1..];
            |out| == |items| && forall j :: 0 <= j < |items| && !Keep(items[j]) ==> out[j] == items[j]
  {
    var out := done + [y] + items[k + 1..];
    forall j | 0 <= j < |items| && !Keep(items[j]) ensures out[j] == items[j] {
      if j < k {
        assert out[j] == done[j];
      } else {
        assert j > k && out[j] == items[k + 1..][j - k - 1];
      }
    }
  }

  /** What the `to_dict_reference_list` loop leaves: skipped elements as they were; on success the kept ids, all persisted. */
  ghost predicate SaveEachPost(items: seq<Value>, l: Looped)
  {
    |l.items| == |items| &&
    (forall j :: 0 <= j < |items| && !Keep(items[j]) ==> l.items[j] == items[j]) &&
    (l.out.Ok? ==> l.out.value == KeptIds(items, l.items) &&
                   forall j :: 0 <= j < |items| && Keep(items[j]) ==> Persisted(l.items[j], l.world))
  }

  /** The loop after its last element. */
  lemma SaveEachFinished(src: Rec, items: seq<Value>, done: seq<Value>, ids: seq<Value>, env: Env, w: World)
    requires VList(items) < src && SaveEachInv(items, |items|, done, ids, w)
    ensures SaveEachPost(items, SaveEach(src, items, |items|, done, ids, env, w))
  {
    assert items[..|items|] == items;
  }

  /** A kept record that saves: the loop goes on with it saved, and the invariant holds one element further. */
  lemma SaveEachSaved(src: Rec, items: seq<Value>, k: nat, done: seq<Value>, ids: seq<Value>, env: Env, w: World)
    requires VList(items) < src && SaveEachInv(items, k, done, ids, w) && k < |items|
    requires Keep(items[k]) && items[k].VRecord? && Save(items[k].rec, env, w).doc.Ok?
    ensures var s := Save(items[k].rec, env, w);
            SaveEach(src, items, k, done, ids, env, w) ==
              SaveEach(src, items, k + 1, done + [VRecord(s.rec)], ids + [s.rec.id], env, s.world) &&
            SaveEachInv(items, k + 1, done + [VRecord(s.rec)], ids + [s.rec.id], s.world)
  {
    var s := Save(items[k].rec, env, w);
    SaveEachInvKept(items, k, done, ids, w, s.rec, s.world);
  }

  /** An element the loop skips: the loop goes on with it unchanged. */
  lemma SaveEachPassed(src: Rec, items: seq<Value>, k: nat, done: seq<Value>, ids: seq<Value>, env: Env, w: World)
    requires VList(items) < src && SaveEachInv(items, k, done, ids, w) && k < |items| && !Keep(items[k])
    ensures SaveEach(src, items, k, done, ids, env, w) == SaveEach(src, items, k + 1, done + [items[k]], ids, env, w) &&
            SaveEachInv(items, k + 1, done + [items[k]], ids, w)
  {
    SaveEachInvSkipped(items, k, done, ids, w);
  }

  /** A kept element that is not a record, or a record whose save fails, stops the loop with an error. */
  lemma SaveEachStopped(src: Rec, items: seq<Value>, k: nat, done: seq<Value>, ids: seq<Value>, env: Env, w: World)
    requires VList(items) < src && SaveEachInv(items, k, done, ids, w) && k < |items| && Keep(items[k])
    requires !(items[k].VRecord? && Save(items[k].rec, env, w).doc.Ok?)
    ensures SaveEachPost(items, SaveEach(src, items, k, done, ids, env, w))
  {
    var x := items[k];
    if x.VRecord? {
      StoppedKeepsSkipped(items, k, done, VRecord(Save(x.rec, env, w).rec));
    } else {
      assert done + items[k..] == done + [x] + items[k + 1..];
      StoppedKeepsSkipped(items, k, done, x);
    }
  }

  /** The loop of `to_dict_reference_list`, from element `k` on. */
  lemma {:induction false} SaveEachSpec(src: Rec, items: seq<Value>, k: nat, done: seq<Value>, ids: seq<Value>,
                                        env: Env, w: World)
    requires VList(items) < src && SaveEachInv(items, k, done, ids, w)
    ensures SaveEachPost(items, SaveEach(src, items, k, done, ids, env, w))
    decreases |items| - k
  {
    if k == |items| {
      SaveEachFinished(src, items, done, ids, env, w);
    } else if !Keep(items[k]) {
      SaveEachPassed(src, items, k, done, ids, env, w);
      SaveEachSpec(src, items, k + 1, done + [items[k]], ids, env, w);
    } else if items[k].VRecord? && Save(items[k].rec, env, w).doc.Ok? {
      var s := Save(items[k].rec, env, w);
      SaveEachSaved(src, items, k, done, ids, env, w);
      SaveEachSpec(src, items, k + 1, done + [VRecord(s.rec)], ids + [s.rec.id], env, s.world);
    } else {
      SaveEachStopped(src, items, k, done, ids, env, w);
    }
  }

  /**
   * `to_dict_reference_list`: a non-empty list gives the ids of its truthy,
   * non-string elements, in order, each of them now saved; anything else gives
   * `[]`; the skipped elements are left as they were.
   */
  lemma ReferenceListIds(src: Rec, key: string, v: Option<Value>, d: Doc, env: Env, w: World)
    requires Below(v, src)
    ensures var e := EncodeReferenceList(src, key, v, d, env, w);
            (v.Some? && !(v.value.VList? && v.value.items != []) ==> e == Encoded(v, Ok(d[key := VList([])]), w)) &&
            (v.Some? && v.value.VList? && v.value.items != [] ==>
               var items := v.value.items;
               e.attr.Some? && e.attr.value.VList? && |e.attr.value.items| == |items| &&
               (forall j :: 0 <= j < |items| && !Keep(items[j]) ==> e.attr.value.items[j] == items[j]) &&
               (e.doc.Ok? ==>
                  var ids := KeptIds(items, e.attr.value.items);
                  key in e.doc.value && e.doc.value[key] == VList(ids) && |ids| <= |items| &&
                  forall j :: 0 <= j < |items| && Keep(items[j]) ==> Persisted(e.attr.value.items[j], e.world)))
  {
    if v.Some? && v.value.VList? && v.value.items != [] {
      assert v.value.items[..0] == [];
      SaveEachSpec(src, v.value.items, 0, [], [], env, w);
    }
  }

  // ------------------------------------------------------------------ decode

  /** The names `from_dict` may assign from field `i` on: present in the payload, and not a skipped list. */
  function DecodedNames(fs: seq<Field>, i: nat, p: Doc): (names: set<string>)
    ensures forall j :: i <= j < |fs| && fs[j].name in p && !fs[j].kind.ReferenceList? && !fs[j].kind.PlainList? ==>
                          fs[j].name in names
    ensures forall n :: n in names ==> n in p
    ensures forall n :: n in names ==>
                          exists j :: i <= j < |fs| && fs[j].name == n && !fs[j].kind.ReferenceList? && !fs[j].kind.PlainList?
  {
    set j | i <= j < |fs| && fs[j].name in p && !fs[j].kind.ReferenceList? && !fs[j].kind.PlainList? :: fs[j].name
  }

  /** The `from_dict` loop assigns only the fields it decodes, whether or not it is interrupted. */
  lemma {:induction false} DecodeFieldsFrame(r: Rec, i: nat, p: Doc, env: Env)
    requires i <= |r.meta.fields|
    ensures AgreeOutside(DecodeFields(r, i, p, env).rec.attrs, r.attrs, DecodedNames(r.meta.fields, i, p))
    decreases |r.meta.fields| - i
  {
    var fs := r.meta.fields;
    if i < |fs| {
      var o := DecodeField(r, fs[i], p, env);
      MinusAgree(o.rec.attrs, r.attrs, fs[i].name);
      assert DecodedNames(fs, i + 1, p) <= DecodedNames(fs, i, p);
      if o.err.None? {
        DecodeFieldsFrame(o.rec, i + 1, p, env);
      }
    }
  }

  /**
   * `from_dict` merges: an attribute the payload does not mention keeps its
   * value, a reference-list or plain-list field keeps its value even when the
   * payload has it, and the id changes only to the payload's `'id'`.
   */
  lemma FromDictMerge(r: Rec, p: Doc, env: Env)
    ensures var o := FromDict(r, p, env);
            (forall k :: k !in p ==> (k in o.rec.attrs <==> k in r.attrs) && (k in r.attrs ==> o.rec.attrs[k] == r.attrs[k])) &&
            (UniqueNames(r.meta.fields) ==>
               forall j :: 0 <= j < |r.meta.fields| && (r.meta.fields[j].kind.ReferenceList? || r.meta.fields[j].kind.PlainList?) ==>
                 var n := r.meta.fields[j].name;
                 (n in o.rec.attrs <==> n in r.attrs) && (n in r.attrs ==> o.rec.attrs[n] == r.attrs[n])) &&
            (o.rec.id != r.id ==> IdKey in p && o.rec.id == p[IdKey])
  {
    DecodeFieldsFrame(r, 0, p, env);
    var names := DecodedNames(r.meta.fields, 0, p);
    if UniqueNames(r.meta.fields) {
      forall j | 0 <= j < |r.meta.fields| && (r.meta.fields[j].kind.ReferenceList? || r.meta.fields[j].kind.PlainList?)
        ensures r.meta.fields[j].name !in names
      {
      }
    }
  }

  /** `from_row`: the decoded record takes the row's key as its id. */
  lemma FromRowKeepsKey(r: Rec, key: Value, value: Doc, env: Env)
    ensures var o := FromRow(r, key, value, env);
            o.err.None? ==> o.rec.id == key && o.rec.attrs == FromDict(r, value, env).rec.attrs
  {
  }

  /** The field kinds `from_dict` decodes on its own, without a nested instance. */
  predicate Simple(k: FieldKind)
  {
    k.Scalar? || k.DateTime? || k.Decimal? || k.Reference? || k.PartialReference?
  }

  /** What `from_dict` stores for a payload value of a simple field. */
  function DecodeValue(k: FieldKind, v: Value, env: Env): Value
  {
    if k.DateTime? then DateOrRaw(v, env) else if k.Decimal? then DecimalOrRaw(v, env) else v
  }

  /** Parsing is tolerant: a record of simple fields decodes without an error, whatever the payload. */
  lemma {:induction false} DecodeSimpleNoError(r: Rec, i: nat, p: Doc, env: Env)
    requires i <= |r.meta.fields| && forall j :: i <= j < |r.meta.fields| ==> Simple(r.meta.fields[j].kind)
    ensures DecodeFields(r, i, p, env).err.None?
    decreases |r.meta.fields| - i
  {
    if i < |r.meta.fields| {
      var o := DecodeField(r, r.meta.fields[i], p, env);
      DecodeSimpleNoError(o.rec, i + 1, p, env);
    }
  }

  /** A simple field present in the payload ends up holding its decoded value (the raw one if parsing raised). */
  lemma {:induction false} DecodeFieldsAt(r: Rec, i: nat, p: Doc, env: Env, j: nat)
    requires UniqueNames(r.meta.fields) && i <= j < |r.meta.fields|
    requires Simple(r.meta.fields[j].kind) && r.meta.fields[j].name in p
    ensures var o := DecodeFields(r, i, p, env);
            var fd := r.meta.fields[j];
            o.err.None? ==> fd.name in o.rec.attrs && o.rec.attrs[fd.name] == DecodeValue(fd.kind, p[fd.name], env)
    decreases j - i
  {
    var fs := r.meta.fields;
    var o := DecodeField(r, fs[i], p, env);
    if o.err.None? {
      if i == j {
        DecodeFieldsFrame(o.rec, i + 1, p, env);
        assert fs[i].name !in DecodedNames(fs, i + 1, p);
      } else {
        DecodeFieldsAt(o.rec, i + 1, p, env, j);
      }
    }
  }

  /** The loop of `from_dict_nested_list` succeeds exactly when every element from `k` on decodes. */
  lemma {:induction false} DecodeEachSucceeds(m: Meta, items: seq<Value>, k: nat, acc: seq<Value>, env: Env)
    requires k <= |items|
    ensures DecodeEach(m, items, k, acc, env).err.None? <==> forall j :: k <= j < |items| ==> DecodeNested(m, items[j], env).Ok?
    decreases |items| - k
  {
    if k < |items| && DecodeNested(m, items[k], env).Ok? {
      DecodeEachSucceeds(m, items, k + 1, acc + [VRecord(DecodeNested(m, items[k], env).value)], env);
    }
  }

  /** `item` is the instance decoded from the payload element `x`. */
  ghost predicate DecodedAs(m: Meta, x: Value, env: Env, item: Value)
  {
    var c := DecodeNested(m, x, env);
    c.Ok? && item == VRecord(c.value)
  }

  /** What the loop appended from element `k + 1` on, after element `k` decoded, is what it appended from `k` on. */
  lemma DecodedExtend(m: Meta, items: seq<Value>, k: nat, acc: seq<Value>, env: Env, out: seq<Value>)
    requires k < |items| && DecodeNested(m, items[k], env).Ok?
    requires var acc' := acc + [VRecord(DecodeNested(m, items[k], env).value)];
             |out| == |acc'| + |items| - (k + 1) && out[..|acc'|] == acc' &&
             forall j :: k + 1 <= j < |items| ==> DecodedAs(m, items[j], env, out[|acc'| + j - (k + 1)])
    ensures |out| == |acc| + |items| - k && out[..|acc|] == acc
    ensures forall j :: k <= j < |items| ==> DecodedAs(m, items[j], env, out[|acc| + j - k])
  {
    var acc' := acc + [VRecord(DecodeNested(m, items[k], env).value)];
    assert out[..|acc|] == out[..|acc'|][..|acc|];
    forall j | k <= j < |items| ensures DecodedAs(m, items[j], env, out[|acc| + j - k]) {
      if j == k {
        assert out[|acc|] == out[..|acc'|][|acc|] == acc'[|acc|];
      } else {
        assert |acc| + j - k == |acc'| + j - (k + 1);
      }
    }
  }

  /** The loop of `from_dict_nested_list`: one decoded instance per element, appended in order. */
  lemma {:induction false} DecodeEachSpec(m: Meta, items: seq<Value>, k: nat, acc: seq<Value>, env: Env)
    requires k <= |items|
    ensures var l := DecodeEach(m, items, k, acc, env);
            l.err.None? ==>
              |l.items| == |acc| + |items| - k && l.items[..|acc|] == acc &&
              forall j :: k <= j < |items| ==> DecodedAs(m, items[j], env, l.items[|acc| + j - k])
    decreases |items| - k
  {
    if k == |items| {
      assert DecodeEach(m, items, k, acc, env) == ListDecoded(acc, None);
    } else {
      var c := DecodeNested(m, items[k], env);
      if c.Ok? {
        var acc' := acc + [VRecord(c.value)];
        DecodeEachSpec(m, items, k + 1, acc', env);
        var l := DecodeEach(m, items, k + 1, acc', env);
        assert DecodeEach(m, items, k, acc, env) == l;
        if l.err.None? {
          DecodedExtend(m, items, k, acc, env, l.items);
        }
      } else {
        assert DecodeEach(m, items, k, acc, env).err.Some?;
      }
    }
  }

  /**
   * `from_dict_nested_list`: without the key the attribute becomes `[]`; with a
   * list it succeeds exactly when every element decodes, and then holds exactly
   * one decoded instance per element, in order.
   */
  lemma NestedListOnePerElement(r: Rec, key: string, m: Meta, p: Doc, env: Env)
    ensures var o := FromDictNestedList(r, key, m, p, env);
            (key !in p ==> o.err.None? && o.rec.attrs[key] == VList([])) &&
            (key in p && p[key].VList? ==>
               var items := p[key].items;
               (o.err.None? <==> forall j :: 0 <= j < |items| ==> DecodeNested(m, items[j], env).Ok?) &&
               (o.err.None? ==>
                  |o.rec.attrs[key].items| == |items| &&
                  forall j :: 0 <= j < |items| ==> o.rec.attrs[key].items[j] == VRecord(DecodeNested(m, items[j], env).value)))
  {
    if key in p && p[key].VList? {
      var items := p[key].items;
      DecodeEachSucceeds(m, items, 0, [], env);
      DecodeEachSpec(m, items, 0, [], env);
      var l := DecodeEach(m, items, 0, [], env);
      if l.err.None? {
        forall j | 0 <= j < |items| ensures l.items[j] == VRecord(DecodeNested(m, items[j], env).value) {
          assert DecodedAs(m, items[j], env, l.items[0 + j - 0]);
        }
      }
    }
  }

  // -------------------------------------------------------------- round trip

  /** A model whose fields are all scalars, datetimes and decimals, with distinct unreserved names. */
  ghost predicate PlainModel(m: Meta)
  {
    UniqueNames(m.fields) &&
    forall j :: 0 <= j < |m.fields| ==>
      (m.fields[j].kind.Scalar? || m.fields[j].kind.DateTime? || m.fields[j].kind.Decimal?) &&
      m.fields[j].name != DocTypeKey && m.fields[j].name != IdKey &&
      m.fields[j].name != SyncPtrKey && m.fields[j].name != CsrfKey
  }

  /** Every field has a value, datetimes hold datetimes and decimals hold decimals. */
  ghost predicate Populated(r: Rec)
  {
    forall j :: 0 <= j < |r.meta.fields| ==>
      var fd := r.meta.fields[j];
      fd.name in r.attrs &&
      (fd.kind.DateTime? ==> r.attrs[fd.name].VDate?) &&
      (fd.kind.Decimal? ==> r.attrs[fd.name].VDecimal?)
  }

  /** The parsers read back what `isoformat` wrote and what a decimal field held. */
  ghost predicate ParsersInvert(env: Env)
  {
    (forall t :: env.parseDatetime(VStr(env.isoformat(t))) == Some(Some(t))) &&
    (forall x :: env.parseDecimal(VDecimal(x)) == Some(x))
  }

  /** On a plain model the `to_dict` loop never fails, calls nothing and writes every attribute back unchanged. */
  lemma {:induction false} EncodePlain(src: Rec, start: Rec, i: nat, d: Doc, env: Env, w: World)
    requires Derived(src, start) && i <= |start.meta.fields| && PlainModel(start.meta) && Populated(start)
    ensures EncodeFields(src, start, i, start.attrs, d, env, w).doc.Ok?
    ensures EncodeFields(src, start, i, start.attrs, d, env, w).attrs == start.attrs
    decreases |start.meta.fields| - i
  {
    var fs := start.meta.fields;
    if i < |fs| {
      var v := Get(start.attrs, fs[i].name);
      var e := EncodeField(src, fs[i], v, d, env, w);
      assert e.attr == v && e.world == w && e.doc.Ok?;
      assert start.attrs[fs[i].name := v.value] == start.attrs;
      EncodePlain(src, start, i + 1, e.doc.value, env, w);
    }
  }

  /** The entry `to_dict` writes for one field of a plain model: a date's isoformat string, otherwise the value. */
  lemma ToDictEntry(r: Rec, env: Env, w: World, j: nat)
    requires PlainModel(r.meta) && Populated(r) && j < |r.meta.fields|
    ensures var s := ToDict(r, env, w);
            var fd := r.meta.fields[j];
            s.doc.Ok? ==>
              fd.name in s.doc.value &&
              s.doc.value[fd.name] == if fd.kind.DateTime? then VStr(env.isoformat(r.attrs[fd.name].t)) else r.attrs[fd.name]
  {
    var fs := r.meta.fields;
    var fd := fs[j];
    var g := GetId(r, env, w);
    var s := ToDict(r, env, w);
    if s.doc.Ok? {
      if fd.kind.DateTime? {
        EncodeFieldsDate(r, g.rec, 0, g.rec.attrs, BaseDict(r, g.id), env, g.world, j);
        assert s == ToDictFrom(r, r, env, w);
        assert s.doc == EncodeFields(r, g.rec, 0, g.rec.attrs, BaseDict(r, g.id), env, g.world).doc;
      } else {
        ToDictFromShape(r, r, env, w);
        assert fd.name !in RewrittenNames(fs, 0);
      }
    }
  }

  /** One field of the round trip. */
  lemma RoundTripField(r: Rec, t: Rec, env: Env, w: World, j: nat)
    requires PlainModel(r.meta) && Populated(r) && ParsersInvert(env) && t.meta == r.meta
    requires j < |r.meta.fields|
    ensures var s := ToDict(r, env, w);
            var n := r.meta.fields[j].name;
            s.doc.Ok? ==>
              n in s.doc.value &&
              var o := DecodeFields(t, 0, s.doc.value, env);
              o.err.None? ==> n in o.rec.attrs && o.rec.attrs[n] == r.attrs[n]
  {
    var s := ToDict(r, env, w);
    ToDictEntry(r, env, w, j);
    if s.doc.Ok? {
      DecodeFieldsAt(t, 0, s.doc.value, env, j);
    }
  }

  /**
   * A record of a plain model survives `to_dict` followed by `from_dict` into
   * any instance of the same model: every field comes back with its value, and
   * the id is the one `to_dict` assigned.
   */
  lemma RoundTrip(r: Rec, t: Rec, env: Env, w: World)
    requires PlainModel(r.meta) && Populated(r) && ParsersInvert(env) && t.meta == r.meta
    ensures var s := ToDict(r, env, w);
            s.doc.Ok? && s.rec.attrs == r.attrs &&
            var o := FromDict(t, s.doc.value, env);
            o.err.None? && o.rec.id == s.rec.id &&
            forall j :: 0 <= j < |r.meta.fields| ==>
              r.meta.fields[j].name in o.rec.attrs && o.rec.attrs[r.meta.fields[j].name] == r.attrs[r.meta.fields[j].name]
  {
    var g := GetId(r, env, w);
    EncodePlain(r, g.rec, 0, BaseDict(r, g.id), env, g.world);
    var s := ToDict(r, env, w);
    ToDictFromShape(r, r, env, w);
    DecodeSimpleNoError(t, 0, s.doc.value, env);
    forall j | 0 <= j < |r.meta.fields|
      ensures var o := DecodeFields(t, 0, s.doc.value, env);
              r.meta.fields[j].name in o.rec.attrs && o.rec.attrs[r.meta.fields[j].name] == r.attrs[r.meta.fields[j].name]
    {
      RoundTripField(r, t, env, w, j);
    }
  }
}
