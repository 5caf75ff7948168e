/** The generic resource service of models/BaseService.js: create, read,
    update and delete over one injected collection, with the fixed mapping
    of store outcomes to service errors. */
module Base {
  import opened Wrappers
  import opened Documents
  import opened Errors
  import opened Store

  const FilterNotFoundMessage: string := "Nothing was found having this data"
  const IdNotFoundMessage: string := "Nothing was found with this id."
  const CreateFailedMessage: string := "Failed to run query to create object"
  const AlreadyExists: string := " already exists"

  /** The context object `{id}` that a failed lookup by id carries. */
  function IdContext(id: Id): (context: Fields)
    ensures context.Keys == {"id"} && context["id"] == Ref(id)
  {
    map["id" := Ref(id)]
  }

  /** An array of strings interpolated into a template string: its
      elements joined by commas. */
  function JoinKeys(keys: seq<string>): (s: string)
    ensures |keys| == 0 ==> s == ""
    ensures |keys| > 0 ==> |keys[0]| <= |s| && s[..|keys[0]|] == keys[0]
    ensures |keys| > 0 ==> |keys[|keys| - 1]| <= |s| && s[|s| - |keys[|keys| - 1]|..] == keys[|keys| - 1]
    ensures (forall k :: k in keys ==> ',' !in k) ==> (',' in s <==> |keys| > 1)
  {
    if |keys| == 0 then ""
    else if |keys| == 1 then keys[0]
    else keys[0] + "," + JoinKeys(keys[1..])
  }

  /** The message of the duplicate-entry error: the names of the fields of
      the violated index, comma-joined, then " already exists". */
  function DuplicateMessage(keyPattern: seq<Field>): (message: string)
    ensures |message| == |JoinKeys(keyPattern)| + |AlreadyExists|
    ensures message[..|JoinKeys(keyPattern)|] == JoinKeys(keyPattern)
    ensures message[|JoinKeys(keyPattern)|..] == AlreadyExists
  {
    JoinKeys(keyPattern) + AlreadyExists
  }

  /** The position of the first comma of `s`. */
  function FirstComma(s: string): (i: nat)
    requires ',' in s
    ensures i < |s| && s[i] == ',' && ',' !in s[..i]
  {
    if s[0] == ',' then 0
    else
      var i := 1 + FirstComma(s[1..]);
      assert s[..i] == [s[0]] + s[1..][..i - 1];
      i
  }

  /** Splitting a string at its commas: the inverse of `JoinKeys`. */
  function SplitKeys(s: string): (parts: seq<string>)
    ensures |parts| > 0
    decreases |s|
  {
    if ',' in s then
      var i := FirstComma(s);
      [s[..i]] + SplitKeys(s[i + 1..])
    else [s]
  }

  lemma SplitAfterKey(key: string, rest: string)
    requires ',' !in key
    ensures SplitKeys(key + "," + rest) == [key] + SplitKeys(rest)
  {
    var s := key + "," + rest;
    assert s[|key|] == ',';
    var i := FirstComma(s);
    assert s[..|key|] == key;
    assert i == |key|;
    assert s[i + 1..] == rest;
  }

  /** The duplicate-entry message names exactly the colliding fields: the
      part before " already exists" splits back into them, as long as no
      field name contains a comma. */
  lemma {:induction false} DuplicateMessageNamesKeys(keyPattern: seq<Field>)
    requires |keyPattern| > 0
    requires forall k :: k in keyPattern ==> ',' !in k
    ensures SplitKeys(DuplicateMessage(keyPattern)[..|JoinKeys(keyPattern)|]) == keyPattern
  {
    JoinSplits(keyPattern);
  }

  lemma {:induction false} JoinSplits(keys: seq<string>)
    requires |keys| > 0
    requires forall k :: k in keys ==> ',' !in k
    ensures SplitKeys(JoinKeys(keys)) == keys
  {
    if |keys| == 1 {
      assert ',' !in keys[0];
    } else {
      JoinSplits(keys[1..]);
      assert keys[0] in keys;
      SplitAfterKey(keys[0], JoinKeys(keys[1..]));
      assert keys == [keys[0]] + keys[1..];
    }
  }

  class BaseService {
    const model: Collection

    constructor (model: Collection)
      ensures this.model == model
    {
      this.model := model;
    }

    /** `add(object)`: the created record, or the mapped create failure; a
        failed create leaves the collection as it was. */
    method Add(document: Fields, fault: bool) returns (r: Result<Record, ServiceError>)
      requires model.Valid()
      modifies model
      ensures model.Valid()
      ensures fault ==>
                r == Err(InternalServerError(CreateFailedMessage)) && model.docs == old(model.docs)
      ensures !fault && FirstViolated(model.uniqueIndexes, document, old(model.docs)).Some? ==>
                r == Err(InvalidDuplicateEntry(DuplicateMessage(
                       FirstViolated(model.uniqueIndexes, document, old(model.docs)).value)))
                && |FirstViolated(model.uniqueIndexes, document, old(model.docs)).value| > 0
                && model.docs == old(model.docs)
      ensures !fault && FirstViolated(model.uniqueIndexes, document, old(model.docs)).None? ==>
                old(model.nextId) !in old(model.docs)
                && r == Ok(Record(old(model.nextId), document))
                && model.docs == old(model.docs)[old(model.nextId) := document]
    {
      var created := model.Create(document, fault);
      match created
      case Ok(rec) =>
        r := Ok(rec);
      case Err(DuplicateKeyError(keyPattern)) =>
        r := Err(InvalidDuplicateEntry(DuplicateMessage(keyPattern)));
      case Err(OperationFailure) =>
        r := Err(InternalServerError(CreateFailedMessage));
    }

    /** `get(filter)`: every matching record, or `NotFound` carrying the
        filter when nothing matches. */
    method Get(filter: Filter) returns (r: Result<seq<Record>, ServiceError>)
      requires model.Valid()
      ensures r.Err? <==> forall id :: id in model.docs ==> !Matches(filter, model.docs[id])
      ensures r.Err? ==> r.error == NotFound(FilterNotFoundMessage, filter)
      ensures r.Ok? ==> forall rec :: rec in r.value <==>
                rec.id in model.docs && rec.fields == model.docs[rec.id] && Matches(filter, rec.fields)
      ensures r.Ok? ==> forall i, j :: 0 <= i < j < |r.value| ==> r.value[i].id < r.value[j].id
    {
      var found := model.Find(filter);
      if |found| == 0 {
        forall id | id in model.docs
          ensures !Matches(filter, model.docs[id])
        {
          assert Record(id, model.docs[id]) !in found;
        }
        r := Err(NotFound(FilterNotFoundMessage, filter));
      } else {
        assert found[0] in found;
        r := Ok(found);
      }
    }

    /** `getById(id)`: the record stored under `id`, or `NotFound` with
        context `{id}`. */
    method GetById(id: Id) returns (r: Result<Record, ServiceError>)
      ensures id in model.docs ==> r == Ok(Record(id, model.docs[id]))
      ensures id !in model.docs ==> r == Err(NotFound(IdNotFoundMessage, IdContext(id)))
    {
      var found := model.FindById(id);
      if found.None? {
        return Err(NotFound(IdNotFoundMessage, IdContext(id)));
      }
      r := Ok(found.value);
    }

    /** `update(id, updates)`: checks that the record exists before it
        changes anything, then returns the post-update record. A unique
        index the merged record violates fails the store call, and that
        error is not mapped. */
    method Update(id: Id, updates: Fields) returns (r: Result<Record, ServiceError>)
      requires model.Valid()
      modifies model
      ensures model.Valid()
      ensures id !in old(model.docs) ==>
                r == Err(NotFound(IdNotFoundMessage, IdContext(id))) && model.docs == old(model.docs)
      ensures id in old(model.docs) ==>
                var merged := Merge(old(model.docs)[id], updates);
                var clash := FirstViolated(model.uniqueIndexes, merged, old(model.docs) - {id});
                && (clash.Some? ==>
                      r == Err(Raw(DuplicateKeyError(clash.value))) && model.docs == old(model.docs))
                && (clash.None? ==>
                      r == Ok(Record(id, merged)) && model.docs == old(model.docs)[id := merged])
    {
      var found := GetById(id);
      if found.Err? {
        return Err(found.error);
      }
      var updated := model.FindByIdAndUpdate(id, updates);
      match updated
      case Err(e) =>
        r := Err(Raw(e));
      case Ok(Some(rec)) =>
        r := Ok(rec);
      case Ok(None) =>
        assert false;
    }

    /** `delete(id)`: checks that the record exists before it changes
        anything, then removes it and returns its prior value. */
    method Delete(id: Id) returns (r: Result<Record, ServiceError>)
      requires model.Valid()
      modifies model
      ensures model.Valid()
      ensures id !in old(model.docs) ==>
                r == Err(NotFound(IdNotFoundMessage, IdContext(id))) && model.docs == old(model.docs)
      ensures id in old(model.docs) ==>
                r == Ok(Record(id, old(model.docs)[id])) && model.docs == old(model.docs) - {id}
    {
      var found := GetById(id);
      if found.Err? {
        return Err(found.error);
      }
      var removed := model.FindByIdAndDelete(id);
      match removed
      case Some(rec) =>
        r := Ok(rec);
      case None =>
        assert false;
    }
  }

  /** An update followed by a lookup: the lookup sees the updates merged
      onto the prior record. */
  method UpdateThenGetById(service: BaseService, id: Id, updates: Fields)
    returns (updated: Result<Record, ServiceError>, reread: Result<Record, ServiceError>)
    requires service.model.Valid()
    modifies service.model
    ensures updated.Ok? ==> id in old(service.model.docs)
    ensures updated.Ok? ==> reread == updated
                            && reread.value.fields == Merge(old(service.model.docs)[id], updates)
    ensures id !in old(service.model.docs) ==> updated.Err? && reread.Err?
  {
    updated := service.Update(id, updates);
    reread := service.GetById(id);
  }

  /** A deletion followed by a lookup: once the record is removed, the
      lookup fails with `NotFound`. */
  method DeleteThenGetById(service: BaseService, id: Id)
    returns (deleted: Result<Record, ServiceError>, reread: Result<Record, ServiceError>)
    requires service.model.Valid()
    modifies service.model
    ensures deleted.Ok? <==> id in old(service.model.docs)
    ensures reread == Err(NotFound(IdNotFoundMessage, IdContext(id)))
  {
    deleted := service.Delete(id);
    reread := service.GetById(id);
  }
}
