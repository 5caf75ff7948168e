/** The document collection a service is constructed with (`this.model`):
    a map from `_id` to document, an allocator for new ids, and the unique
    indexes that make `create` fail with a duplicate-key error. */
module Store {
  import opened Wrappers
  import opened Documents
  import opened Errors

  /** Some stored document has the same key as `doc` under `index`. */
  predicate Collides(index: seq<Field>, doc: Fields, docs: map<Id, Fields>) {
    exists id :: id in docs && SameKey(index, docs[id], doc)
  }

  /** The first unique index that `doc` would violate, if any. */
  function FirstViolated(indexes: seq<seq<Field>>, doc: Fields, docs: map<Id, Fields>): (v: Option<seq<Field>>)
    ensures v.None? <==> forall i :: 0 <= i < |indexes| ==> !Collides(indexes[i], doc, docs)
    ensures v.Some? ==> exists i :: 0 <= i < |indexes| && indexes[i] == v.value
                                   && Collides(v.value, doc, docs)
                                   && forall j :: 0 <= j < i ==> !Collides(indexes[j], doc, docs)
  {
    if |indexes| == 0 then None
    else if Collides(indexes[0], doc, docs) then Some(indexes[0])
    else
      var rest := FirstViolated(indexes[1..], doc, docs);
      assert forall i :: 1 <= i < |indexes| ==> indexes[i] == indexes[1..][i - 1];
      rest
  }

  /** The documents with an id below `n` that match `filter`, in ascending
      id order (the order in which they were created). */
  function Scan(docs: map<Id, Fields>, filter: Filter, n: nat): (found: seq<Record>)
    ensures forall rec :: rec in found <==>
              rec.id < n && rec.id in docs && rec.fields == docs[rec.id] && Matches(filter, rec.fields)
    ensures forall i, j :: 0 <= i < j < |found| ==> found[i].id < found[j].id
  {
    if n == 0 then []
    else
      Scan(docs, filter, n - 1)
      + (if n - 1 in docs && Matches(filter, docs[n - 1]) then [Record(n - 1, docs[n - 1])] else [])
  }

  class Collection {
    var docs: map<Id, Fields>
    var nextId: nat
    const uniqueIndexes: seq<seq<Field>>

    /** Every id in use was handed out by the allocator, every unique index
        names at least one field, and no two stored documents have the same
        key under any unique index. */
    ghost predicate Valid()
      reads this
    {
      && (forall id :: id in docs ==> id < nextId)
      && (forall index :: index in uniqueIndexes ==> |index| > 0)
      && (forall index, a, b :: index in uniqueIndexes && a in docs && b in docs && a != b ==>
            !SameKey(index, docs[a], docs[b]))
    }

    constructor (uniqueIndexes: seq<seq<Field>>)
      requires forall index :: index in uniqueIndexes ==> |index| > 0
      ensures Valid()
      ensures docs == map[] && this.uniqueIndexes == uniqueIndexes
    {
      docs := map[];
      nextId := 0;
      this.uniqueIndexes := uniqueIndexes;
    }

    /** `findById`: the document stored under `id`, or `null`. */
    function FindById(id: Id): (r: Option<Record>)
      reads this
      ensures r.Some? <==> id in docs
      ensures r.Some? ==> r.value.id == id && r.value.fields == docs[id]
    {
      if id in docs then Some(Record(id, docs[id])) else None
    }

    /** `find(filter)`: every matching document, each once, in creation order. */
    function Find(filter: Filter): (found: seq<Record>)
      reads this
      requires Valid()
      ensures forall rec :: rec in found <==>
                rec.id in docs && rec.fields == docs[rec.id] && Matches(filter, rec.fields)
      ensures forall i, j :: 0 <= i < j < |found| ==> found[i].id < found[j].id
    {
      Scan(docs, filter, nextId)
    }

    /** `create(doc)`. `fault` stands for every failure other than a
        duplicate key (validation, connection), which the model does not
        look into. */
    method Create(doc: Fields, fault: bool) returns (r: Result<Record, StoreError>)
      requires Valid()
      modifies this
      ensures Valid()
      ensures fault ==> r == Err(OperationFailure) && docs == old(docs) && nextId == old(nextId)
      ensures !fault && FirstViolated(uniqueIndexes, doc, old(docs)).Some? ==>
                r == Err(DuplicateKeyError(FirstViolated(uniqueIndexes, doc, old(docs)).value))
                && docs == old(docs) && nextId == old(nextId)
      ensures !fault && FirstViolated(uniqueIndexes, doc, old(docs)).None? ==>
                old(nextId) !in old(docs)
                && r == Ok(Record(old(nextId), doc))
                && docs == old(docs)[old(nextId) := doc]
                && nextId == old(nextId) + 1
    {
      if fault {
        return Err(OperationFailure);
      }
      var clash := FirstViolated(uniqueIndexes, doc, docs);
      if clash.Some? {
        return Err(DuplicateKeyError(clash.value));
      }
      r := Ok(Record(nextId, doc));
      docs := docs[nextId := doc];
      nextId := nextId + 1;
    }

    /** `findByIdAndUpdate(id, updates, {new: true})`: `null` for a missing
        id, the post-update document otherwise, unless the merged document
        violates a unique index. */
    method FindByIdAndUpdate(id: Id, updates: Fields) returns (r: Result<Option<Record>, StoreError>)
      requires Valid()
      modifies this
      ensures Valid() && nextId == old(nextId)
      ensures id !in old(docs) ==> r == Ok(None) && docs == old(docs)
      ensures id in old(docs) ==>
                var merged := Merge(old(docs)[id], updates);
                var clash := FirstViolated(uniqueIndexes, merged, old(docs) - {id});
                && (clash.Some? ==> r == Err(DuplicateKeyError(clash.value)) && docs == old(docs))
                && (clash.None? ==> r == Ok(Some(Record(id, merged))) && docs == old(docs)[id := merged])
    {
      if id !in docs {
        return Ok(None);
      }
      var merged := Merge(docs[id], updates);
      var clash := FirstViolated(uniqueIndexes, merged, docs - {id});
      if clash.Some? {
        return Err(DuplicateKeyError(clash.value));
      }
      forall index, b | index in uniqueIndexes && b in docs && b != id
        ensures !SameKey(index, merged, docs[b]) && !SameKey(index, docs[b], merged)
      {
        var i :| 0 <= i < |uniqueIndexes| && uniqueIndexes[i] == index;
        assert !Collides(uniqueIndexes[i], merged, docs - {id});
        assert b in docs - {id};
      }
      docs := docs[id := merged];
      r := Ok(Some(Record(id, merged)));
    }

    /** `findByIdAndDelete(id)`: `null` for a missing id, the removed
        document otherwise. */
    method FindByIdAndDelete(id: Id) returns (r: Option<Record>)
      requires Valid()
      modifies this
      ensures Valid() && nextId == old(nextId)
      ensures id !in old(docs) ==> r == None && docs == old(docs)
      ensures id in old(docs) ==> r == Some(Record(id, old(docs)[id])) && docs == old(docs) - {id}
    {
      if id !in docs {
        return None;
      }
      r := Some(Record(id, docs[id]));
      docs := docs - {id};
    }
  }
}
