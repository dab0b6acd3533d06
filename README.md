# django-couchbase, modelled in Dafny

This project models the two halves of django-couchbase:

- **`CBModel`** (`django-couchbase/models.py`). This is a Django model that
  persists itself as a JSON document in a Couchbase bucket. The model covers:
  - `__init__` with keyword arguments, and id assignment;
  - `to_dict` with its per-field-kind encoders: nested, nested list,
    reference, reference list, dates; `to_dict_partial_reference`, which
    `to_dict` never dispatches to;
  - the merge decoder `from_dict`, with dates and decimals;
  - `save`, `load`, `delete`;
  - the reference-list helpers;
  - `CBNestedModel`, which refuses to be saved or loaded.
- **`CouchbaseCache`** (`django_couchbase/memcached.py`). This is a Django
  cache backend over a Couchbase key/value store. The model covers:
  - the lazily created client (`_cache`);
  - every facade operation, with the fixed rule each one follows on success,
    on NotFoundError, on KeyExistsError and on any other error.

The files:

- `values.dfy`:
  - module `Wrappers`: Option, Result and the error kinds;
  - module `Values`: Python values, with truthiness; field descriptors (one
    kind per Django field class the codec dispatches on); model classes
    (`Meta`); records held by value (`Rec`).
- `model_spec.dfy`, module `ModelSpec`: every `CBModel` operation as a pure
  function of the record, the injected environment (`Env`) and the world
  (`World`). The world holds the bucket's documents, the number of uuids
  drawn and the number of clock reads.
- `model_props.dfy`, module `ModelProperties`: the properties of those
  functions, proved as lemmas. They include:
  - the shape of `to_dict`'s output;
  - `save` stamping dates;
  - the reference encoders;
  - `from_dict` as a merge;
  - the encode/decode round trip.
- `models.dfy`, module `Models`: the imperative form.
  - `CBModel` is a class with fields `idPrefix`, `id` and `attrs`.
  - It works against a mutable `Bucket` (the document store) and a
    `Runtime` (the uuid source and the clock).
  - Every method's contract states its new state, and its result, as the
    corresponding `ModelSpec` function.
- `cache_store.dfy`, module `CacheStore`: the Couchbase key/value primitives
  as step functions on `map<string, Entry>`, and a `Store` class that applies
  them.
  - Each call consumes one answer of a fault oracle `faults: nat -> Fault`.
  - So any primitive can also raise NotFoundError, KeyExistsError or
    another error.
- `memcached.dfy`, module `Memcached`: the `CouchbaseCache` class.
  - It has fields `client`, `bucket` and `couchbaseCli`, and holds a `Store`.
  - One specification function per operation (`SetOutcome`, `AddOutcome`, …)
    gives the return value, the entries afterwards and the number of store
    calls.
  - Each method is proved equal to its specification function.

Calls into code that is not shown are parameters:

- `Env.uuid` stands for `ShortUUIDField.create_uuid`.
- `Env.now` stands for `timezone.now`.
- `Env.isoformat` stands for `isoformat()`.
- `Env.parseDatetime` stands for `dateparse.parse_datetime`.
- `Env.parseDecimal` stands for `Decimal(...)`.
- The cache's `makeKey`, `memcacheTimeout` and `defaultTimeout` stand for
  Django's `make_key`, `_get_memcache_timeout` and `default_timeout`.

Python's raising of an exception is a `Result`/`Option` error or a `Ret.RRaise`
value. `Truthy` is Python's `bool(v)`.

The model follows the code where it does not do what a reader would expect:

- `set` can raise, in two places:
  - `cn = self._cache` sits outside the `try` (django_couchbase/memcached.py:117), so "need host" escapes.
  - The fallback `add` runs inside the `NotFoundError` handler (django_couchbase/memcached.py:133-138), so its own error escapes.
  - `SetOutcome` states exactly when `set` raises.
- `incr`/`decr` can likewise raise from their fallback `add`.

## Model

| member | source | states |
|---|---|---|
| Values.Lower | django-couchbase/models.py:305-308 | `lower()` on the class name: same length, each character lowered, no upper-case ASCII left |
| ModelSpec.GetId | django-couchbase/models.py:75-79 | when the id is absent or falsy, the new id is `id_prefix + "::" + uuid` and one uuid is drawn; a set id is returned unchanged with the world untouched; afterwards the record is never new and only its id changed |
| ModelSpec.IsNew | django-couchbase/models.py:274-275 | a record whose id is None or the empty string is new; one with a non-empty string id is not |
| ModelSpec.GetIdIdempotent | django-couchbase/models.py:75-79 | a second `get_id` returns the same id and changes nothing |
| ModelSpec.NewIdsDiffer | django-couchbase/models.py:75-79 | with an injective uuid source, two new records of one prefix get different ids |
| ModelSpec.DocType | django-couchbase/models.py:305-308 | the explicit `doc_type` when truthy, otherwise the lowered class name; empty exactly when both are empty |
| ModelSpec.CleanKwargs | django-couchbase/models.py:314-319 | keeps exactly the keyword arguments that name a declared field, with their values |
| ModelSpec.Init | django-couchbase/models.py:49-64 | `channels` is `[]` and `rev` None unless a declared field sets them; a string `id_prefix` keyword replaces the class prefix; an `id` keyword sets the id, which is None otherwise; every declared default is kept unless a cleaned keyword argument overrides it; the attributes are exactly these |
| ModelSpec.StringFromDate | django-couchbase/models.py:288-292 | a date becomes its isoformat string; anything else, or a missing attribute, becomes None instead of raising |
| ModelSpec.DateOrRaw | django-couchbase/models.py:281-286 | a parsed date is stored, a value the parser rejects is stored raw, a parse to None stores None |
| ModelSpec.DecimalOrRaw | django-couchbase/models.py:294-299 | a parsed decimal is stored, otherwise the raw value |
| ModelSpec.ModelToDict | django-couchbase/models.py:106-108 | the field map `to_dict` starts from: exactly the declared fields the record has, with their values |
| ModelSpec.BaseDict | django-couchbase/models.py:110-113 | the map has `doc_type` = `get_doc_type()` and `id` = the record's id, has no `cbnosync_ptr` or `csrfmiddlewaretoken`, and holds the value of every other declared field the record has |
| ModelSpec.ToDict | django-couchbase/models.py:105-126 | the record afterwards is the input with the `get_id` id and re-encoded attributes; it is no longer new; the world only grows; KeyExists never escapes |
| ModelSpec.ToDictFrom | django-couchbase/models.py:105-126 | the same guarantees for a record already stamped by `save` |
| ModelSpec.EncodeFields | django-couchbase/models.py:114-125 | the per-field loop only grows the world and never raises KeyExists |
| ModelSpec.EncodeField | django-couchbase/models.py:114-125 | plain fields leave the attribute, document and world unchanged; every encoder changes at most the entry under its own field name |
| ModelSpec.EncodeNested | django-couchbase/models.py:190-192 | on success the entry is the embedded record's own `to_dict`, and the attribute becomes the record that call left behind |
| ModelSpec.EncodeReference | django-couchbase/models.py:200-205 | a truthy non-string referent is saved, its id is stored under the key and the document exists in the bucket; a string or falsy value leaves document and world unchanged |
| ModelSpec.EncodeReferenceList | django-couchbase/models.py:207-216 | on success only the entry under the key changes |
| ModelSpec.SaveEach | django-couchbase/models.py:211-214 | the loop over the reference list keeps every element's position and never raises KeyExists |
| ModelSpec.EncodeNestedList | django-couchbase/models.py:194-198 | on success only the entry under the key changes; its contents are stated by `NestedListDocs` |
| ModelSpec.EncodeEach | django-couchbase/models.py:196-197 | the loop over the embedded list keeps one element per input element; the documents it produces are stated by `EncodeEachSpec` |
| ModelProperties.EncodeEachStep | django-couchbase/models.py:196-197 | after an element whose `to_dict` succeeds, the loop continues from the next element in the world that call left, and later elements see the same worlds |
| ModelProperties.EncodeEachSucceeds | django-couchbase/models.py:196-197 | the loop succeeds exactly when every element is a model instance whose `to_dict` succeeds |
| ModelProperties.EachDoneExtend | django-couchbase/models.py:196-197 | the documents appended from element `k + 1` on, preceded by element `k`'s document, are those appended from `k` on |
| ModelProperties.EncodeEachSpec | django-couchbase/models.py:196-197 | on success one `to_dict` document per element is appended, in order, and each element becomes the instance its `to_dict` left behind |
| ModelProperties.NestedListDocs | django-couchbase/models.py:194-198 | a list gives, exactly when every element's `to_dict` succeeds, one `to_dict` document per element in order, and each element is replaced by the instance its `to_dict` left; an empty string or dict gives `[]`; anything else raises |
| ModelSpec.Stamp | django-couchbase/models.py:85-87 | `updated` is always the current time; `created` is set only when missing or None; no other attribute changes |
| ModelSpec.Save | django-couchbase/models.py:84-101 | a nested model (the `CBNestedModel.save` override, lines 322-327) raises CouchbaseModelError and changes nothing; otherwise the record has its `get_id` id and on success the bucket holds the document under that id |
| ModelSpec.EncodePartialReference | django-couchbase/models.py:218-226 | a truthy non-string referent is saved, its id is stored under the key and each link's destination gets a copy of the referent's attribute; a string or falsy value changes nothing |
| ModelSpec.AttrOf | django-couchbase/models.py:223-224 | `getattr` on the saved referent: `id`, or the attribute of that name (instances built by `Init` carry `channels` and `rev`) |
| ModelSpec.Fresh | django-couchbase/models.py:228-242 | a newly built nested instance of the given class has the class prefix and no id yet |
| ModelSpec.FreshIsInit | django-couchbase/models.py:229 | `nested_klass()` is `__init__` with no keyword arguments |
| ModelSpec.FromDict | django-couchbase/models.py:128-146 | the id changes only on success and only to the payload's `id` entry; class and prefix are kept |
| ModelSpec.DecodeFields | django-couchbase/models.py:129-144 | the field loop keeps class, prefix and id |
| ModelSpec.DecodeField | django-couchbase/models.py:130-144 | changes at most the attribute of its own field; a field absent from the payload, or a list field whose items are not embedded, is skipped |
| ModelSpec.FromDictNested | django-couchbase/models.py:228-233 | an absent key changes nothing; with the key, success exactly when the payload entry is a dict that `from_dict` decodes into a fresh instance, and then the attribute is that instance; a failure changes nothing; no other attribute changes |
| ModelSpec.FromDictNestedList | django-couchbase/models.py:235-242 | the attribute under the key always becomes a list; nothing else changes |
| ModelSpec.DecodeNestedList | django-couchbase/models.py:237-242 | a decoded list has one instance per payload element; a non-list payload gives no instances and succeeds exactly when it is an empty string or dict |
| ModelSpec.DecodeEach | django-couchbase/models.py:239-242 | when the loop over the payload list succeeds, one instance is appended per remaining element |
| ModelSpec.DecodeNested | django-couchbase/models.py:230-231 | succeeds exactly on a dict that `from_dict` decodes into a fresh instance of the embedded class, and yields that decoded instance; a non-dict raises |
| ModelSpec.FromRow | django-couchbase/models.py:150-152 | reports exactly `from_dict`'s error; on success the id is the row's key, on failure the record is what `from_dict` left |
| ModelSpec.Load | django-couchbase/models.py:154-159 | a nested model (the `CBNestedModel.load` override, lines 329-330) raises CouchbaseModelError; a missing document or any decoding error becomes NotFoundError; success is `from_row` on the stored document |
| ModelSpec.AsList | django-couchbase/models.py:244-272 | a non-list attribute reads as `[]` |
| ModelSpec.AppendUnique | django-couchbase/models.py:244-253 | the value is in the result; it is appended only when absent; a duplicate-free list stays duplicate-free |
| ModelSpec.FirstIndex | django-couchbase/models.py:269-270 | the position `list.remove` deletes: the first occurrence |
| ModelSpec.RemoveFirst | django-couchbase/models.py:263-272 | an absent value leaves the list unchanged; a present one makes it exactly one element shorter |
| ModelSpec.RemoveFirstCounts | django-couchbase/models.py:269-270 | removal takes away exactly one occurrence: the multiset loses one copy of the value when it is present and nothing otherwise |
| ModelSpec.RemoveFirstShifts | django-couchbase/models.py:269-270 | the removed copy is the first occurrence: elements before it keep their positions, elements after it move down by one |
| ModelSpec.RemoveFirstRemoves | django-couchbase/models.py:263-272 | in a duplicate-free list the value is gone afterwards |
| ModelProperties.EncodeFieldsFrame | django-couchbase/models.py:114-125 | the field loop changes no document entry other than those of rewritten fields |
| ModelProperties.ToDictFromShape | django-couchbase/models.py:105-126 | when no date, list, embedded or reference field is named `doc_type`, `id`, `cbnosync_ptr` or `csrfmiddlewaretoken` (`ReservedFree`): on success the document has `doc_type`, `id` = `get_id()`, no sync/csrf keys, and every plain field's value |
| ModelProperties.ToDictShape | django-couchbase/models.py:105-113 | under the same `ReservedFree` hypothesis, the same document shape for `to_dict` on an unstamped record |
| ModelProperties.EncodeFieldsDate | django-couchbase/models.py:115-116 | every DateTime field is encoded by `_string_from_date` |
| ModelProperties.SaveAlwaysSets | django-couchbase/models.py:97-111 | the write is always the unconditional `set` of the `to_dict` document under the id, never `add` |
| ModelProperties.SaveDateField | django-couchbase/models.py:85-116 | each DateTime field of the saved document is the string of the stamped value |
| ModelProperties.SaveStampsDates | django-couchbase/models.py:85-116 | the saved document's `updated` is now; `created` is now when it was missing or None, otherwise the old value's string |
| ModelProperties.NestedRefusesPersistence | django-couchbase/models.py:322-330 | a nested model's save and load both raise CouchbaseModelError and change nothing |
| ModelProperties.ReferenceSkipsFalsyAndStrings | django-couchbase/models.py:200-226 | a falsy or string referent leaves the parent document and the world unchanged for both reference encoders |
| ModelProperties.CopyLinksSpec | django-couchbase/models.py:223-224 | the links succeed exactly when every source attribute exists; each destination then holds that attribute and nothing else changes |
| ModelSpec.CopyLinks | django-couchbase/models.py:223-224 | the only error is the RuntimeError of a missing attribute; on success the document keeps its entries, holds every destination, and every source attribute existed |
| ModelProperties.KeptIds | django-couchbase/models.py:209-215 | at most one id per element; all kept when all are truthy non-strings, none when none are |
| ModelProperties.KeptIdsSnoc | django-couchbase/models.py:211-214 | appending an element appends its id exactly when it is kept, preserving order |
| ModelProperties.SaveEachInvKept | django-couchbase/models.py:212-214 | a kept element is saved and its id appended |
| ModelProperties.SaveEachInvSkipped | django-couchbase/models.py:212 | a skipped element is left as it was |
| ModelProperties.StoppedKeepsSkipped | django-couchbase/models.py:211-213 | when the loop stops at a kept element, every element it skips still has its input value |
| ModelProperties.SaveEachFinished | django-couchbase/models.py:209-215 | at the end of the list the collected ids are those of the kept elements, each of them persisted |
| ModelProperties.SaveEachSaved | django-couchbase/models.py:211-214 | a kept model whose save succeeds: the loop goes on with it saved and its id appended |
| ModelProperties.SaveEachPassed | django-couchbase/models.py:212 | a falsy or string element: the loop goes on with it unchanged |
| ModelProperties.SaveEachStopped | django-couchbase/models.py:212-213 | a kept element that is not a model, or whose save raises, stops the loop with an error and leaves the skipped elements unchanged |
| ModelProperties.SaveEachSpec | django-couchbase/models.py:209-214 | the loop yields the ids of the kept elements in order, leaves skipped ones unchanged, and every kept one is persisted |
| ModelProperties.ReferenceListIds | django-couchbase/models.py:207-216 | a non-list or empty value stores `[]`; otherwise the stored list is the kept elements' ids in order, no longer than the input, each persisted |
| ModelProperties.DecodeFieldsFrame | django-couchbase/models.py:129-144 | the decoder changes only attributes of fields present in the payload and not plain or reference lists |
| ModelProperties.FromDictMerge | django-couchbase/models.py:128-146 | attributes absent from the payload keep their values; non-embedded list fields are untouched; the id changes only to the payload's `id` |
| ModelProperties.FromRowKeepsKey | django-couchbase/models.py:150-152 | after `from_row` the id is the row key and the attributes are those of `from_dict` |
| ModelProperties.DecodeSimpleNoError | django-couchbase/models.py:139-144 | scalar, date and decimal fields never make decoding fail: a bad date or decimal is kept raw by `_date_from_string` and `_decimal_from_string` (lines 281-299) |
| ModelProperties.DecodeFieldsAt | django-couchbase/models.py:139-144 | a present scalar/date/decimal field gets the decoded payload value |
| ModelProperties.DecodeEachSucceeds | django-couchbase/models.py:238-242 | the loop over the payload list succeeds exactly when every element decodes |
| ModelProperties.DecodedExtend | django-couchbase/models.py:239-242 | the instances appended from element `k + 1` on, preceded by element `k`'s, are those appended from `k` on |
| ModelProperties.DecodeEachSpec | django-couchbase/models.py:235-242 | decoding a list succeeds exactly when every element decodes, yielding one record per element in order |
| ModelProperties.NestedListOnePerElement | django-couchbase/models.py:235-242 | `from_dict_nested_list` stores exactly one decoded item per payload element, and `[]` when the key is absent |
| ModelProperties.EncodePlain | django-couchbase/models.py:114-125 | for a model of plain, date and decimal fields the field loop succeeds and leaves the attributes as they are |
| ModelProperties.ToDictEntry | django-couchbase/models.py:105-116 | for a model of plain, date and decimal fields, each field's document entry is the isoformat string of a DateTime value and the value itself otherwise |
| ModelProperties.RoundTripField | django-couchbase/models.py:105-146 | with parsers that invert isoformat, each field survives `to_dict` then `from_dict` |
| ModelProperties.RoundTrip | django-couchbase/models.py:105-146 | `from_dict(to_dict(r))` succeeds, restores the id and every declared field of a plain model |
| Models.Bucket.Get | django-couchbase/models.py:156 | the stored document, or NotFoundError |
| Models.Bucket.Set | django-couchbase/models.py:101 | writes the document under the key |
| Models.Bucket.Add | django-couchbase/models.py:99 | writes only a missing key; KeyExistsError otherwise with nothing changed |
| Models.Bucket.Remove | django-couchbase/models.py:171 | removes the key; NotFoundError when it was missing |
| Models.Runtime.CreateUuid | django-couchbase/models.py:77-78 | draws the next uuid from the injected source |
| Models.Runtime.Now | django-couchbase/models.py:85 | reads the next instant from the injected clock |
| Models.CBModel.constructor | django-couchbase/models.py:49-64 | the new instance is `ModelSpec.Init` of the keyword arguments |
| Models.CBModel.GetId | django-couchbase/models.py:75-79 | new state and result are `ModelSpec.GetId` |
| Models.CBModel.IsNew | django-couchbase/models.py:274-275 | an instance whose id is None or the empty string is new; one with a non-empty string id is not |
| Models.CBModel.Eq | django-couchbase/models.py:45-47 | same class: compares both `get_id()` results, each of which may assign an id; another class: None and nothing changes |
| Models.CBModel.Save | django-couchbase/models.py:84-101 | new record, bucket and error are those of `ModelSpec.Save` |
| Models.CBModel.ToDict | django-couchbase/models.py:105-126 | new record, bucket and document are those of `ModelSpec.ToDict` |
| Models.CBModel.StampNow | django-couchbase/models.py:85-87 | the record is `ModelSpec.Stamp` with the clock's next instant, and the clock advances by one reading |
| Models.CBModel.EncodeStep | django-couchbase/models.py:114-125 | one field of the `to_dict` loop: on error the state is the final `ModelSpec.EncodeFields` result, otherwise the loop's invariant holds one field further |
| Models.CBModel.EncodeRecord | django-couchbase/models.py:110-126 | the field loop of `to_dict` equals `ModelSpec.ToDictFrom` |
| Models.CBModel.EncodeFieldOf | django-couchbase/models.py:114-125 | the per-kind dispatch equals `ModelSpec.EncodeField` |
| Models.CBModel.ToDictNested | django-couchbase/models.py:190-192 | equals `ModelSpec.EncodeNested` |
| Models.CBModel.ToDictNestedList | django-couchbase/models.py:194-198 | the loop equals `ModelSpec.EncodeNestedList` |
| Models.CBModel.ToDictReference | django-couchbase/models.py:200-205 | equals `ModelSpec.EncodeReference` |
| Models.CBModel.ToDictReferenceList | django-couchbase/models.py:207-216 | the loop equals `ModelSpec.EncodeReferenceList` |
| Models.CBModel.ToDictPartialReference | django-couchbase/models.py:218-226 | the links loop equals `ModelSpec.EncodePartialReference` |
| Models.CBModel.FromDict | django-couchbase/models.py:128-146 | the field loop equals `ModelSpec.FromDict` |
| Models.CBModel.DateFromString | django-couchbase/models.py:281-286 | stores `DateOrRaw` of the value under the name, nothing else changes |
| Models.CBModel.DecimalFromString | django-couchbase/models.py:294-299 | stores `DecimalOrRaw` of the value under the name, nothing else changes |
| Models.CBModel.FromDictNested | django-couchbase/models.py:228-233 | equals `ModelSpec.FromDictNested` |
| Models.CBModel.FromDictNestedList | django-couchbase/models.py:235-242 | the loop equals `ModelSpec.FromDictNestedList` |
| Models.CBModel.FromRow | django-couchbase/models.py:150-152 | equals `ModelSpec.FromRow` |
| Models.CBModel.Load | django-couchbase/models.py:154-159 | equals `ModelSpec.Load` on the bucket's documents |
| Models.CBModel.Delete | django-couchbase/models.py:164-175 | the document under the id is gone afterwards; a missing one is swallowed and reported |
| Models.CBModel.AppendToReferencesList | django-couchbase/models.py:244-253 | the attribute becomes `AppendUnique` of the old list, a non-list read as `[]` |
| Models.CBModel.GetReferencesList | django-couchbase/models.py:255-261 | the list attribute, or `[]` when it is missing or not a list |
| Models.CBModel.DeleteFromReferencesList | django-couchbase/models.py:263-272 | the attribute becomes `RemoveFirst` of the old list, a non-list read as `[]` |
| Models.CBModel.GetDocType | django-couchbase/models.py:305-308 | the truthy `doc_type`, otherwise the lowered class name |
| CacheStore.GetStep | django_couchbase/memcached.py:105-111 | the stored value, NotFoundError for a missing key, the injected error otherwise; entries unchanged |
| CacheStore.SetStep | django_couchbase/memcached.py:127-128 | an unconditional write with the given ttl, or an error and no change |
| CacheStore.AddStep | django_couchbase/memcached.py:152-153 | writes only a missing key, KeyExistsError for a present one; an error changes nothing |
| CacheStore.DeleteStep | django_couchbase/memcached.py:167 | removes a present key, NotFoundError for a missing one (also the `delete` of `set` at line 125) |
| CacheStore.Counted | django_couchbase/memcached.py:173-193 | increment adds; decrement subtracts and is floored at zero |
| CacheStore.CounterStep | django_couchbase/memcached.py:173-193 | NotFoundError for a missing key, an error for a non-counter; otherwise the new count with the ttl kept |
| CacheStore.GetMultiStep | django_couchbase/memcached.py:199 | one result per asked key, the stored value for the present ones; NotFoundError when some key is missing; hits get the ttl; faults return nothing and change nothing; stored values never change and only asked keys get the new ttl |
| CacheStore.SetMultiStep | django_couchbase/memcached.py:224 | writes every pair with the ttl and keeps other entries, or fails with no change |
| CacheStore.DeleteMultiStep | django_couchbase/memcached.py:233 | removes the present keys; NotFoundError when some was missing (also `set_many` at line 222) |
| CacheStore.Store.Get | django_couchbase/memcached.py:105-111 | applies `GetStep` with the next fault answer |
| CacheStore.Store.Set | django_couchbase/memcached.py:127-128 | applies `SetStep` with the next fault answer |
| CacheStore.Store.Add | django_couchbase/memcached.py:152-153 | applies `AddStep` with the next fault answer |
| CacheStore.Store.Delete | django_couchbase/memcached.py:167 | applies `DeleteStep` with the next fault answer |
| CacheStore.Store.Counter | django_couchbase/memcached.py:173-193 | applies `CounterStep` with the next fault answer |
| CacheStore.Store.GetMulti | django_couchbase/memcached.py:199 | applies `GetMultiStep` with the next fault answer |
| CacheStore.Store.SetMulti | django_couchbase/memcached.py:224 | applies `SetMultiStep` with the next fault answer |
| CacheStore.Store.DeleteMulti | django_couchbase/memcached.py:233 | applies `DeleteMultiStep` with the next fault answer |
| Memcached.FormatOf | django_couchbase/memcached.py:88-98 | JSON, BYTES, UTF8 and AUTO map to their formats; PICKLE, the empty name and every unknown name fall back to PICKLE |
| Memcached.Find | django_couchbase/memcached.py:70 | `str.find`: the first index of the character, or -1 exactly when it is absent |
| Memcached.SplitAsWritten | django_couchbase/memcached.py:67-72 | with a colon, host and port are the text around the first colon; without one, the host loses its last character and the port is the whole string |
| Memcached.SplitWithoutColon | django_couchbase/memcached.py:67-72 | `"localhost"` splits into host `"localhos"` and port `"localhost"` |
| Memcached.SplitServer | django_couchbase/memcached.py:67-72 | host and port are the text around the first colon; without a colon the host is the whole string and the port the default 8091 |
| Memcached.SplitServerAgreesWithColon | django_couchbase/memcached.py:67-72 | with a colon, the corrected split and the written one agree |
| Memcached.ConnectionFor | django_couchbase/memcached.py:67-98 | no server means "need host"; otherwise host and port as the code splits them (`SplitAsWritten`, which agrees with `SplitServer` when there is a colon), the `bucket` option (default `"default"`), the `password` option (default `""`) and the format fallback |
| Memcached.ConnectWithoutPort | django_couchbase/memcached.py:67-72 | a server without a colon reaches `connect` as host `"localhos"` and port `"localhost"` |
| Memcached.Connect | django_couchbase/memcached.py:59-102 | an existing client is reused unchanged; with no server nothing changes; otherwise the client, bucket and couchbase-cli are set from the host and port as the code splits them |
| Memcached.ConnectOnce | django_couchbase/memcached.py:63-100 | a second access to `_cache` changes nothing; afterwards a client exists exactly when one did before or a server is configured |
| Memcached.SetOutcome | django_couchbase/memcached.py:115-143 | a negative timeout deletes and never writes; otherwise writes with that ttl; KeyExistsError gives None, another error False; NotFoundError falls back to `add` only for a non-negative timeout, and that `add` can raise; raises exactly when there is no host or the fallback fails |
| Memcached.AddOutcome | django_couchbase/memcached.py:145-158 | a negative timeout returns False without touching the store; succeeds exactly on a healthy store with the key missing; every failure returns False and changes nothing |
| Memcached.DeleteOutcome | django_couchbase/memcached.py:163-171 | returns the store's success exactly when a present key is removed; otherwise False with nothing changed; never raises |
| Memcached.CounterOutcome | django_couchbase/memcached.py:173-193 | a present counter is incremented or floored-decremented with its ttl kept; a missing key is created by `add` seeded with `+delta`, for `decr` too; other errors return False; it raises exactly when the key is missing and the seeding `add` fails, and returns `RDone`, the `add`'s own success, exactly when that `add` succeeds |
| Memcached.GetResult | django_couchbase/memcached.py:105-111 | the stored value when the lookup succeeds; the caller's default whenever anything raises |
| Memcached.Hits | django_couchbase/memcached.py:200-206 | exactly the successful results, with their values |
| Memcached.CollectHits | django_couchbase/memcached.py:200-206 | the loop over the results keeps exactly the successful ones with their values, that is `Hits` |
| Memcached.GetManyResult | django_couchbase/memcached.py:195-209 | only fetched entries, keyed by made keys; every present key on a healthy store; partial results on NotFoundError; `{}` on any other error |
| Memcached.SetManyOutcome | django_couchbase/memcached.py:211-227 | with `_cache` unreachable or a faulty store, False and nothing changes; a negative timeout deletes the given keys and returns True exactly when they were all present; otherwise writes every pair with the ttl and keeps every other entry; never raises |
| Memcached.DeleteManyOutcome | django_couchbase/memcached.py:229-236 | removes the made keys; succeeds exactly when all were present on a healthy store; never raises |
| Memcached.MadeKeys | django_couchbase/memcached.py:195-196 | every key passes through `make_key`, in order, as in `get_many` and `delete_many` (lines 230-233) |
| Memcached.SafeDataKeys | django_couchbase/memcached.py:212-215 | `safe_data` has exactly the made keys |
| Memcached.SafeData | django_couchbase/memcached.py:212-215 | `safe_data` has at most one entry per item, and is empty exactly when there are no items |
| Memcached.SafeDataLastWins | django_couchbase/memcached.py:212-215 | each made key holds the value of the last item mapped to it |
| Memcached.SetThenGet | django_couchbase/memcached.py:105-143 | a successful `set` is what the next healthy `get` returns |
| Memcached.ExpiredSetThenGet | django_couchbase/memcached.py:105-128 | after a healthy `set` with a negative timeout, `get` returns the default |
| Memcached.AddKeepsExisting | django_couchbase/memcached.py:145-158 | `add` on a present key returns False and leaves the entry untouched, whatever the store answers |
| Memcached.SetManyThenGetMany | django_couchbase/memcached.py:195-227 | after a healthy `set_many`, a healthy `get_many` of written keys returns exactly those keys with the written values |
| Memcached.CouchbaseCache.constructor | django_couchbase/memcached.py:49-57 | the backend starts with no client and an empty bucket name |
| Memcached.CouchbaseCache.Cache | django_couchbase/memcached.py:59-102 | the new handles are `Connect` of the old ones; a client comes back exactly when one existed or a server is configured; a new one is opened on the host and port as the code splits them |
| Memcached.CouchbaseCache.Get | django_couchbase/memcached.py:105-111 | returns `GetResult`; entries unchanged |
| Memcached.CouchbaseCache.Set | django_couchbase/memcached.py:115-143 | result, entries and number of store calls are those of `SetOutcome` |
| Memcached.CouchbaseCache.Add | django_couchbase/memcached.py:145-158 | equals `AddOutcome`; a negative timeout does not even touch `_cache` |
| Memcached.CouchbaseCache.Delete | django_couchbase/memcached.py:163-171 | equals `DeleteOutcome` |
| Memcached.CouchbaseCache.Counter | django_couchbase/memcached.py:173-193 | equals `CounterOutcome` |
| Memcached.CouchbaseCache.Incr | django_couchbase/memcached.py:173-182 | equals `CounterOutcome` with increment |
| Memcached.CouchbaseCache.Decr | django_couchbase/memcached.py:184-193 | equals `CounterOutcome` with decrement |
| Memcached.CouchbaseCache.GetMany | django_couchbase/memcached.py:195-209 | the result loop equals `GetManyResult` on the made keys; the store becomes `GetMultiStep`'s: values kept, the ttl of hit keys refreshed to the default timeout |
| Memcached.CouchbaseCache.SetMany | django_couchbase/memcached.py:211-227 | the `safe_data` loop builds `SafeData`; the outcome equals `SetManyOutcome` |
| Memcached.CouchbaseCache.DeleteMany | django_couchbase/memcached.py:229-236 | equals `DeleteManyOutcome` on the made keys |

## Left out

- The JSON round trip through tastypie's serializer inside `to_dict` is the identity on the field map.
- `model_to_dict` is the declared fields the record has. Django's editable-field filtering is not modelled.
- Date/decimal parsing and `isoformat()` are injected functions in `Env`.
- `ShortUUIDField.create_uuid` and `timezone.now` are injected sequences indexed by counters.
- The `FileField` commit during `save`: it goes to external blob storage.
- `get_bucket`, `HttpResponseNotFound` (modelled as a returned flag), `__unicode__`, `to_json`/`from_json` and logging.
- `load_list`, `load_related` and `load_related_list`.
- The positional-argument branch of `__init__` (a `ValueResult` goes to `load_list`, a string to `load`) is not modelled; `load` itself is `Models.CBModel.Load`.
- Models.CBModel.constructor: a non-string `id_prefix` keyword is ignored, where Python would store it and fail later in `get_id`. Django's own field initialisation in `Model.__init__` is modelled as the declared defaults overridden by the cleaned keyword arguments.
- ModelProperties.ToDictFromShape and ModelProperties.ToDictShape assume `ReservedFree`. The field loop at models.py:114-125 runs after `doc_type` and `id` are set and the sync/csrf keys are removed, so a date, list, embedded or reference field with one of those names overwrites or re-adds that entry, and the source itself does not keep the shape.
- Models.CBModel.Eq: subclass instances are not modelled. The class is `Meta`, compared by equality, so an instance of a subclass, which `isinstance` would accept on one side only, gives None and the asymmetry of `__eq__` is lost.
- One document bucket (`World.docs`) serves every model class. In the source each class's `bucket` attribute chooses its own `get_bucket()`, so `Persisted` and `ReferenceListIds` read "in the bucket" as one shared store.
- Default arguments are explicit parameters: `get`'s `default=None` is `VNone`, `incr`/`decr`'s `delta=1` is a `delta` argument, `set`/`add`'s `timeout=None` is `None`, and `set_many`'s `timeout=0` is `Some(0)`.
- The cascade loop in `delete` (models.py:166-172) is not modelled. For a reference field whose `embedded_model` is a model class, the test `isinstance(field, field.embedded_model)` is false, so `delete` removes `self.id` only, which is what `Models.CBModel.Delete` does. With the default `embedded_model=None` (fields.py:6-7), or any other value that is not a class, `isinstance` raises TypeError. That is not NotFoundError, so it escapes `delete` before `self.db.remove` runs and nothing is removed. The model does not reproduce that raise.
- Models.CBModel.Delete: any store error other than NotFoundError is not modelled.
- The document bucket has no transport errors. Only the cache store carries a fault oracle.
- Referenced and embedded records are values inside attributes, not shared objects.
  - The model does not capture aliasing: two attributes holding the same Python object.
  - `in` and `list.remove` on references use value equality, where Python uses `__eq__` on records.
- Field names are distinct (`CBModel.Valid`). This is how Django declares them, and it lets the `to_dict` loop read each field from the record as it was when the loop started.
- `Lower` folds ASCII letters only.
- `clear()`: an HTTP flush through the couchbase-cli / REST API, network I/O only. It also uses `json`, which that file never imports.
- `self._lib.connect(...)` always succeeds in the model. Its `operation_timeout`, `transcoder`, gevent and lock-mode options exist for the network and concurrency and are not modelled.
- The cache's `server` is a list of strings and `options` a dictionary of strings.
- make_key, `_get_memcache_timeout` and `default_timeout` are uninterpreted parameters of the backend.
- Time-to-live expiry is not modelled.
  - A ttl is stored with each entry but never expires it.
  - `decr` flooring at zero is a property of the store, without 64-bit wrap-around.
- Memcached.CouchbaseCache.GetMany: the values of the result map are the stored values. The library's result objects and their `success` flag are folded into `Option`.
- Memcached.CouchbaseCache.Counter: `incr`/`decr` return the library's result object. The model returns the count it carries (`RCounter`), or `RDone` for the fallback `add`.
- Memcached.SetOutcome: the logged messages are not modelled, only the return values.

## Findings

| source | as written | input that shows it | evidently intended | confidence | as-written member | corrected member |
|---|---|---|---|---|---|---|
| django_couchbase/memcached.py:67-72 | `idx = server[0].find(':')`, then `host = server[0][:idx]` and `port = server[0][idx+1:]`, with no check for `idx == -1` | server `"localhost"` gives host `"localhos"` and port `"localhost"` | without a colon, the host is the whole string and the port keeps the default 8091 assigned just before the test | medium, not executed | Memcached.SplitWithoutColon | Memcached.SplitServer |

The operational model (`ConnectionFor`, `Connect`, `CouchbaseCache.Cache`) keeps the split as written (`SplitAsWritten`); `SplitServer` is the corrected definition, and `ConnectionFor` agrees with it whenever the server string has a colon.
