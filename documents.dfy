/** The documents the store holds. A stored document is a `Record`: its
    `_id` and its top-level fields. Field values are untyped, as in a
    schemaless document store; a nested document (a product embedded in an
    order, a category joined into a product) keeps its own `_id`. */
module Documents {

  type Id = nat
  type Field = string

  datatype Value =
    | Null
    | Str(s: string)
    | Num(n: int)
    | Ref(id: Id)
    | List(items: seq<Value>)
    | Nested(rec: Record)

  datatype Record = Record(id: Id, fields: Fields)

  type Fields = map<Field, Value>

  /** A query filter: a plain object of field/value pairs, as a request's
      query string gives it. */
  type Filter = Fields

  /** The filter `{}`, the default argument of every `get`. */
  const AllRecords: Filter := map[]

  /** One pair of an equality filter: `null` also matches a missing field,
      and a value matches an array field that contains it. */
  predicate FieldMatches(doc: Fields, f: Field, v: Value) {
    if v == Null then f !in doc || doc[f] == Null
    else f in doc && (doc[f] == v || (doc[f].List? && v in doc[f].items))
  }

  /** A document matches a filter when it matches every pair of it. */
  predicate Matches(filter: Filter, doc: Fields) {
    forall f :: f in filter ==> FieldMatches(doc, f, filter[f])
  }

  lemma AllRecordsMatchesEverything(doc: Fields)
    ensures Matches(AllRecords, doc)
  {
  }

  /** The effect of a plain update object: every top-level field it names
      is set to its value, every other field is kept. */
  function Merge(doc: Fields, updates: Fields): (merged: Fields)
    ensures merged.Keys == doc.Keys + updates.Keys
    ensures forall f :: f in updates ==> merged[f] == updates[f]
    ensures forall f :: f in doc && f !in updates ==> merged[f] == doc[f]
  {
    doc + updates
  }

  /** The value a unique index sees for a field: a missing field is indexed
      as `null`. */
  function IndexedValue(doc: Fields, f: Field): Value {
    if f in doc then doc[f] else Null
  }

  /** Two documents have the same key under a unique index on `index`. */
  predicate SameKey(index: seq<Field>, a: Fields, b: Fields) {
    forall f :: f in index ==> IndexedValue(a, f) == IndexedValue(b, f)
  }
}
