/** The product service of services/product.js: the generic service over
    the product collection, with `get` replaced by a lookup that joins each
    product's category. */
module Products {
  import opened Wrappers
  import opened Documents
  import opened Errors
  import opened Store
  import opened Base

  const CategoryField: Field := "category"

  /** Populating the `category` path of one product: a reference is
      replaced by the category record it names, or by `null` when no such
      category exists; every other field is kept as it is. */
  function JoinCategory(product: Record, categories: map<Id, Fields>): (joined: Record)
    ensures joined.id == product.id
    ensures joined.fields.Keys == product.fields.Keys
    ensures forall f :: f in product.fields && f != CategoryField ==> joined.fields[f] == product.fields[f]
    ensures CategoryField in product.fields && product.fields[CategoryField].Ref? ==>
              var cid := product.fields[CategoryField].id;
              joined.fields[CategoryField]
              == (if cid in categories then Nested(Record(cid, categories[cid])) else Null)
    ensures CategoryField in product.fields && !product.fields[CategoryField].Ref? ==>
              joined.fields[CategoryField] == product.fields[CategoryField]
  {
    if CategoryField in product.fields && product.fields[CategoryField].Ref? then
      var cid := product.fields[CategoryField].id;
      var category := if cid in categories then Nested(Record(cid, categories[cid])) else Null;
      Record(product.id, product.fields[CategoryField := category])
    else product
  }

  /** `JoinCategory` applied to each product, in order. */
  function JoinAll(products: seq<Record>, categories: map<Id, Fields>): (joined: seq<Record>)
    ensures |joined| == |products|
    ensures forall i :: 0 <= i < |products| ==> joined[i] == JoinCategory(products[i], categories)
  {
    if |products| == 0 then []
    else [JoinCategory(products[0], categories)] + JoinAll(products[1..], categories)
  }

  /** Joining categories into a complete, ordered list of matches gives a
      complete, ordered list of joined matches. */
  lemma JoinedMatches(found: seq<Record>, docs: map<Id, Fields>, filter: Filter, categories: map<Id, Fields>)
    requires forall rec :: rec in found <==>
               rec.id in docs && rec.fields == docs[rec.id] && Matches(filter, rec.fields)
    requires forall i, j :: 0 <= i < j < |found| ==> found[i].id < found[j].id
    ensures var joined := JoinAll(found, categories);
            && (forall i :: 0 <= i < |joined| ==>
                  joined[i].id in docs && Matches(filter, docs[joined[i].id])
                  && joined[i] == JoinCategory(Record(joined[i].id, docs[joined[i].id]), categories))
            && (forall id :: id in docs && Matches(filter, docs[id]) ==>
                  exists i :: 0 <= i < |joined| && joined[i].id == id)
            && (forall i, j :: 0 <= i < j < |joined| ==> joined[i].id < joined[j].id)
  {
    var joined := JoinAll(found, categories);
    forall i | 0 <= i < |joined|
      ensures joined[i].id in docs && Matches(filter, docs[joined[i].id])
      ensures joined[i] == JoinCategory(Record(joined[i].id, docs[joined[i].id]), categories)
    {
      assert found[i] in found;
      assert found[i] == Record(found[i].id, docs[found[i].id]);
    }
    forall id | id in docs && Matches(filter, docs[id])
      ensures exists i :: 0 <= i < |joined| && joined[i].id == id
    {
      var rec := Record(id, docs[id]);
      assert rec in found;
      var i :| 0 <= i < |found| && found[i] == rec;
      assert joined[i].id == id;
    }
    forall i, j | 0 <= i < j < |joined|
      ensures joined[i].id < joined[j].id
    {
      assert joined[i] == JoinCategory(found[i], categories);
      assert joined[j] == JoinCategory(found[j], categories);
    }
  }

  class ProductServices {
    /** The inherited operations: `add`, `getById`, `update` and `delete`
        are those of the generic service over the product collection. */
    const base: BaseService
    const categories: Collection

    constructor (products: Collection, categories: Collection)
      ensures base.model == products && this.categories == categories
    {
      base := new BaseService(products);
      this.categories := categories;
    }

    /** `get(filter)`: the matching products, each with its category
        joined, in creation order. A query result is never `null`, so an
        empty match is a success, unlike the generic `get`. */
    function Get(filter: Filter): (r: Result<seq<Record>, ServiceError>)
      reads base.model, categories
      requires base.model.Valid()
      ensures r.Ok?
      ensures forall i :: 0 <= i < |r.value| ==>
                r.value[i].id in base.model.docs
                && Matches(filter, base.model.docs[r.value[i].id])
                && r.value[i] == JoinCategory(Record(r.value[i].id, base.model.docs[r.value[i].id]), categories.docs)
      ensures forall id :: id in base.model.docs && Matches(filter, base.model.docs[id]) ==>
                exists i :: 0 <= i < |r.value| && r.value[i].id == id
      ensures forall i, j :: 0 <= i < j < |r.value| ==> r.value[i].id < r.value[j].id
    {
      var found := base.model.Find(filter);
      JoinedMatches(found, base.model.docs, filter, categories.docs);
      Ok(JoinAll(found, categories.docs))
    }
  }

  /** Where the generic `get` raises `NotFound`, the product `get` returns
      the empty list. */
  lemma EmptyMatchIsSuccess(service: ProductServices, filter: Filter)
    requires service.base.model.Valid()
    requires forall id :: id in service.base.model.docs ==> !Matches(filter, service.base.model.docs[id])
    ensures service.Get(filter) == Ok([])
  {
  }
}
