/** Failure-compatible helpers shared by the modules below. */
module Wrappers {
  datatype Option<+T> = None | Some(value: T)

  /** The exceptions the document model raises, and the ones it lets through from Python. */
  datatype Error =
    | ModelError    // CouchbaseModelError: a nested record was asked to save or load itself
    | NotFound      // NotFoundError, raised by load and by the store
    | KeyExists     // KeyExistsError, raised by the store on `add` of an existing key
    | RuntimeError  // AttributeError / TypeError raised by Python on a value of the wrong shape

  datatype Result<+T> = Ok(value: T) | Err(error: Error)
}

/**
 * The values a record attribute or a document entry can hold, the field
 * descriptors that replace Django's field introspection, and Python truthiness.
 */
module Values {
  import opened Wrappers

  /** An abstract `datetime`; its text form comes from an injected `isoformat`. */
  datatype Timestamp = Timestamp(micros: int)

  /** An abstract `Decimal`: coefficient times ten to the exponent. */
  datatype Dec = Dec(coefficient: int, exponent: int)

  datatype Value =
    | VNone
    | VBool(b: bool)
    | VInt(i: int)
    | VStr(s: string)
    | VDate(t: Timestamp)
    | VDecimal(d: Dec)
    | VList(items: seq<Value>)
    | VDict(entries: map<string, Value>)
    | VRecord(rec: Rec)          // a model instance held by value (embedded or referenced)

  /** A document: what `to_dict` produces and what the bucket stores. */
  type Doc = map<string, Value>

  /**
   * The kind tag of a declared field, one per Django field class the codec
   * dispatches on. `Embedded` and `EmbeddedList` carry the embedded model class.
   */
  datatype FieldKind =
    | Scalar                     // any other field: copied by value
    | DateTime                   // DateTimeField
    | Decimal                    // DecimalField
    | Embedded(model: Meta)      // EmbeddedModelField
    | EmbeddedList(model: Meta)  // ListField(EmbeddedModelField(...))
    | ReferenceList              // ListField(ModelReferenceField(...))
    | PlainList                  // ListField of anything else
    | Reference                  // ModelReferenceField
    | PartialReference           // PartialReferenceField

  datatype Field = Field(name: string, kind: FieldKind)

  /**
   * A model class: its name, the `doc_type` and `id_prefix` class attributes,
   * its declared fields in declaration order, the attribute values a fresh
   * instance starts with, and whether it is a CBNestedModel.
   */
  datatype Meta = Meta(
    className: string,
    docType: Option<string>,
    idPrefix: string,
    fields: seq<Field>,
    defaults: map<string, Value>,
    nested: bool)

  /** A model instance as a value: its class, `id_prefix`, `id` and other attributes. */
  datatype Rec = Rec(meta: Meta, idPrefix: string, id: Value, attrs: map<string, Value>)

  /** Python truthiness (`bool(v)`). Model instances and datetimes are always true. */
  predicate Truthy(v: Value)
  {
    match v
    case VNone => false
    case VBool(b) => b
    case VInt(i) => i != 0
    case VStr(s) => s != ""
    case VDate(_) => true
    case VDecimal(d) => d.coefficient != 0
    case VList(items) => items != []
    case VDict(entries) => entries != map[]
    case VRecord(_) => true
  }

  function Get(m: map<string, Value>, k: string): (r: Option<Value>)
    ensures r.Some? <==> k in m
    ensures r.Some? ==> r.value == m[k]
  {
    if k in m then Some(m[k]) else None
  }

  /** The names of the declared fields. */
  function FieldNames(fs: seq<Field>): (names: set<string>)
    ensures forall i :: 0 <= i < |fs| ==> fs[i].name in names
    ensures forall n :: n in names ==> exists i :: 0 <= i < |fs| && fs[i].name == n
  {
    set i | 0 <= i < |fs| :: fs[i].name
  }

  /** Django refuses two fields of one model with the same name. */
  predicate UniqueNames(fs: seq<Field>)
  {
    forall i, j :: 0 <= i < j < |fs| ==> fs[i].name != fs[j].name
  }

  function LowerChar(c: char): char
  {
    if 'A' <= c <= 'Z' then (c as int + 32) as char else c
  }

  /** `str.lower()` on the ASCII letters. */
  function Lower(s: string): (t: string)
    ensures |t| == |s|
    ensures forall i :: 0 <= i < |s| ==> t[i] == LowerChar(s[i])
    ensures forall i :: 0 <= i < |t| ==> !('A' <= t[i] <= 'Z')
  {
    if s == [] then [] else [LowerChar(s[0])] + Lower(s[1..])
  }
}
