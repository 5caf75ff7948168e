/** The order service of services/order.js: the generic service over the
    order collection, with an `add` that resolves every product first, an
    owner-checked delete, and the most-ordered-product aggregation. */
module Orders {
  import opened Wrappers
  import opened Documents
  import opened Errors
  import opened Store
  import opened Base
  import opened Products

  const ProductsField: Field := "products"
  const OwnerField: Field := "userId"
  const TimesOrderedField: Field := "timesOrdered"
  const ForbiddenMessage: string := "You are not authorized to delete this order."
  /** Reading `_id` of the missing first row of an empty aggregation result. */
  const NoRowMessage: string := "Cannot read properties of undefined (reading '_id')"
  /** Calling `toString` on the `null` group key. */
  const NullKeyMessage: string := "Cannot read properties of null (reading 'toString')"

  // ---------------------------------------------------------------------
  // Resolving the products of a new order

  /** Calling `map` on a missing, `null` or non-array `products` field. */
  const UndefinedProductsMessage: string := "Cannot read properties of undefined (reading 'map')"
  const NullProductsMessage: string := "Cannot read properties of null (reading 'map')"
  const NotArrayMessage: string := "orderObject.products.map is not a function"

  /** The `products` list of an order object, or the error that calling
      `map` on anything other than an array raises. */
  function ProductItems(order: Fields): (r: Result<seq<Value>, ServiceError>)
    ensures r.Ok? <==> ProductsField in order && order[ProductsField].List?
    ensures r.Ok? ==> r.value == order[ProductsField].items
    ensures r.Err? ==> r.error.TypeError?
  {
    if ProductsField !in order then Err(TypeError(UndefinedProductsMessage))
    else match order[ProductsField]
      case List(items) => Ok(items)
      case Null => Err(TypeError(NullProductsMessage))
      case _ => Err(TypeError(NotArrayMessage))
  }

  /** The context `{id: null}` of a lookup of `null`. */
  const NullIdContext: Fields := map["id" := Null]

  /** The id `findById` casts an element to: an id is itself, and a
      document is cast to its `_id`. */
  function CastId(item: Value): (id: Option<Id>)
    ensures id.Some? <==> item.Ref? || item.Nested?
    ensures item.Ref? ==> id == Some(item.id)
    ensures item.Nested? ==> id == Some(item.rec.id)
  {
    match item
    case Ref(id) => Some(id)
    case Nested(rec) => Some(rec.id)
    case _ => None
  }

  /** The product service's `getById` applied to one element of the list:
      an element that casts to an id gives that product's record or
      `NotFound` carrying the element; `null` finds nothing; any other value
      cannot be cast to an id and fails the query. */
  function Lookup(item: Value, products: map<Id, Fields>): (r: Result<Value, ServiceError>)
    ensures r.Ok? <==> CastId(item).Some? && CastId(item).value in products
    ensures r.Ok? ==> r.value == Nested(Record(CastId(item).value, products[CastId(item).value]))
    ensures CastId(item).Some? && CastId(item).value !in products ==>
              r == Err(NotFound(IdNotFoundMessage, map["id" := item]))
    ensures item.Ref? && item.id !in products ==> r == Err(NotFound(IdNotFoundMessage, IdContext(item.id)))
    ensures item == Null ==> r == Err(NotFound(IdNotFoundMessage, NullIdContext))
    ensures CastId(item).None? && item != Null ==> r == Err(Raw(OperationFailure))
  {
    if item == Null then Err(NotFound(IdNotFoundMessage, NullIdContext))
    else match CastId(item)
      case None => Err(Raw(OperationFailure))
      case Some(id) =>
        if id in products then Ok(Nested(Record(id, products[id])))
        else Err(NotFound(IdNotFoundMessage, map["id" := item]))
  }

  /** Looking up each element in turn: the records in list order, or the
      error of the first element that does not resolve. */
  function Resolve(items: seq<Value>, products: map<Id, Fields>): (r: Result<seq<Value>, ServiceError>)
    ensures r.Ok? <==> forall i :: 0 <= i < |items| ==> Lookup(items[i], products).Ok?
    ensures r.Ok? ==> |r.value| == |items|
    ensures r.Ok? ==> forall i :: 0 <= i < |items| ==> r.value[i] == Lookup(items[i], products).value
  {
    if |items| == 0 then Ok([])
    else match Lookup(items[0], products)
      case Err(e) => Err(e)
      case Ok(first) =>
        match Resolve(items[1..], products)
        case Ok(rest) => Ok([first] + rest)
        case Err(e) =>
          assert forall i :: 1 <= i < |items| ==> items[i] == items[1..][i - 1];
          Err(e)
  }

  /** The whole order is rejected with the error of the first element that
      does not resolve. */
  lemma {:induction false} ResolveFirstFailure(items: seq<Value>, products: map<Id, Fields>, k: nat)
    requires k < |items| && Lookup(items[k], products).Err?
    requires forall j :: 0 <= j < k ==> Lookup(items[j], products).Ok?
    ensures Resolve(items, products) == Err(Lookup(items[k], products).error)
  {
    if k > 0 {
      assert Lookup(items[0], products).Ok?;
      ResolveFirstFailure(items[1..], products, k - 1);
    }
  }

  /** The product list of an order object, resolved: fails when there is
      no list, or with the first element that does not resolve. */
  function ResolveOrder(order: Fields, products: map<Id, Fields>): (r: Result<seq<Value>, ServiceError>)
    ensures r.Ok? <==> && ProductsField in order && order[ProductsField].List?
                       && forall i :: 0 <= i < |order[ProductsField].items| ==>
                            Lookup(order[ProductsField].items[i], products).Ok?
    ensures r.Ok? ==> |r.value| == |order[ProductsField].items|
    ensures ProductsField in order && order[ProductsField].List? ==>
              r == Resolve(order[ProductsField].items, products)
  {
    match ProductItems(order)
    case Err(e) => Err(e)
    case Ok(items) => Resolve(items, products)
  }

  /** Only the owner of an order may delete it through `deleteOwnOrder`:
      an order without a `userId` belongs to nobody. */
  predicate OwnedBy(order: Fields, userId: Id)
    ensures OwnedBy(order, userId) ==> OwnerField in order && order[OwnerField] == Ref(userId)
    ensures OwnerField !in order ==> !OwnedBy(order, userId)
  {
    OwnerField in order && order[OwnerField] == Ref(userId)
  }

  // ---------------------------------------------------------------------
  // The most-ordered-product aggregation

  /** A group of the `$sortByCount` stage is keyed by `$products._id`,
      which is `null` for an element that is not a document. */
  type GroupKey = Option<Id>

  /** A row of the aggregation result: `{_id, count}`. */
  datatype Group = Group(key: GroupKey, count: nat)

  /** How many times `k` occurs in `keys`. */
  function Occurrences(keys: seq<GroupKey>, k: GroupKey): (n: nat)
    ensures n <= |keys|
  {
    if |keys| == 0 then 0
    else (if keys[0] == k then 1 else 0) + Occurrences(keys[1..], k)
  }

  lemma {:induction false} OccurrencesAbsent(keys: seq<GroupKey>, k: GroupKey)
    requires k !in keys
    ensures Occurrences(keys, k) == 0
  {
    if |keys| > 0 {
      assert keys[0] != k;
      assert forall x :: x in keys[1..] ==> x in keys;
      OccurrencesAbsent(keys[1..], k);
    }
  }

  lemma {:induction false} OccurrencesPresent(keys: seq<GroupKey>, k: GroupKey)
    requires k in keys
    ensures Occurrences(keys, k) > 0
  {
    if keys[0] != k {
      OccurrencesPresent(keys[1..], k);
    }
  }

  /** Counting over a concatenation adds the counts of the parts. */
  lemma {:induction false} OccurrencesAppend(a: seq<GroupKey>, b: seq<GroupKey>, k: GroupKey)
    ensures Occurrences(a + b, k) == Occurrences(a, k) + Occurrences(b, k)
  {
    if |a| > 0 {
      assert (a + b)[0] == a[0];
      assert (a + b)[1..] == a[1..] + b;
      OccurrencesAppend(a[1..], b, k);
    } else {
      assert a + b == b;
    }
  }

  /** Counting over a sequence that starts with `x`. */
  lemma OccurrencesCons(x: GroupKey, rest: seq<GroupKey>)
    ensures forall k :: Occurrences([x] + rest, k) == (if x == k then 1 else 0) + Occurrences(rest, k)
  {
    assert ([x] + rest)[1..] == rest;
  }

  /** `$unwind: '$products'`: the elements of an array, none for a missing,
      `null` or empty one, the value itself for any other. */
  function Unwound(order: Fields): (items: seq<Value>)
    ensures ProductsField in order && order[ProductsField].List? ==> items == order[ProductsField].items
    ensures (ProductsField !in order || order[ProductsField] == Null) ==> items == []
  {
    if ProductsField !in order then []
    else match order[ProductsField]
      case Null => []
      case List(items) => items
      case v => [v]
  }

  /** `$products._id` of one unwound element. */
  function ItemKey(item: Value): (k: GroupKey)
    ensures k.Some? <==> item.Nested?
    ensures item.Nested? ==> k.value == item.rec.id
  {
    if item.Nested? then Some(item.rec.id) else None
  }

  function ItemKeys(items: seq<Value>): (keys: seq<GroupKey>)
    ensures |keys| == |items|
    ensures forall i :: 0 <= i < |items| ==> keys[i] == ItemKey(items[i])
  {
    if |items| == 0 then [] else [ItemKey(items[0])] + ItemKeys(items[1..])
  }

  /** How many times `k` occurs in each order's own product list, summed
      over the orders. */
  function PerOrderTotal(orders: seq<Record>, k: GroupKey): nat {
    if |orders| == 0 then 0
    else Occurrences(ItemKeys(Unwound(orders[0].fields)), k) + PerOrderTotal(orders[1..], k)
  }

  /** The group keys of all orders, flattened in order: a key's count over
      the flattened list is the sum of its counts per order, and the list
      is empty exactly when no order unwinds to any element. */
  function UnwoundKeys(orders: seq<Record>): (keys: seq<GroupKey>)
    ensures forall k :: Occurrences(keys, k) == PerOrderTotal(orders, k)
    ensures |keys| == 0 <==> forall i :: 0 <= i < |orders| ==> |Unwound(orders[i].fields)| == 0
  {
    if |orders| == 0 then []
    else
      var first := ItemKeys(Unwound(orders[0].fields));
      var rest := UnwoundKeys(orders[1..]);
      assert forall k :: Occurrences(first + rest, k) == Occurrences(first, k) + Occurrences(rest, k) by {
        forall k ensures Occurrences(first + rest, k) == Occurrences(first, k) + Occurrences(rest, k) {
          OccurrencesAppend(first, rest, k);
        }
      }
      assert forall i :: 1 <= i < |orders| ==> orders[i] == orders[1..][i - 1];
      first + rest
  }

  /** The `$group` half of `$sortByCount`: one count per distinct key. */
  function GroupCounts(keys: seq<GroupKey>): (counts: map<GroupKey, nat>)
    ensures forall k :: k in counts <==> k in keys
    ensures forall k :: k in counts ==> counts[k] == Occurrences(keys, k)
  {
    if |keys| == 0 then map[]
    else
      var rest := GroupCounts(keys[1..]);
      assert forall k :: k in keys <==> k == keys[0] || k in keys[1..];
      if keys[0] in rest then rest[keys[0] := rest[keys[0]] + 1]
      else
        OccurrencesAbsent(keys[1..], keys[0]);
        rest[keys[0] := 1]
  }

  /** The first candidate whose count is the largest. */
  function Leader(counts: map<GroupKey, nat>, candidates: seq<GroupKey>): (k: GroupKey)
    requires |candidates| > 0
    requires forall c :: c in candidates ==> c in counts
    ensures k in candidates
    ensures forall c :: c in candidates ==> counts[c] <= counts[k]
  {
    if |candidates| == 1 then candidates[0]
    else
      var rest := Leader(counts, candidates[1..]);
      if counts[candidates[0]] >= counts[rest] then candidates[0] else rest
  }

  /** `$sortByCount` followed by `$limit: 1`: a most frequent key and its
      count, or no row at all when there are no keys. */
  function TopGroup(keys: seq<GroupKey>): (top: Option<Group>)
    ensures top.None? <==> |keys| == 0
    ensures top.Some? ==> top.value.key in keys
    ensures top.Some? ==> top.value.count == Occurrences(keys, top.value.key)
    ensures top.Some? ==> forall k :: Occurrences(keys, k) <= top.value.count
  {
    if |keys| == 0 then None
    else
      var counts := GroupCounts(keys);
      var k := Leader(counts, keys);
      assert forall c :: c !in keys ==> Occurrences(keys, c) == 0 by {
        forall c | c !in keys ensures Occurrences(keys, c) == 0 {
          OccurrencesAbsent(keys, c);
        }
      }
      Some(Group(k, counts[k]))
  }

  /** The worked example: orders with products [A, A, B] and [A, C] make A
      the most ordered product, three times. */
  lemma MostOrderedExample(a: Record, b: Record, c: Record, o1: Id, o2: Id)
    requires a.id == 1 && b.id == 2 && c.id == 3
    ensures var orders := [Record(o1, map[ProductsField := List([Nested(a), Nested(a), Nested(b)])]),
                           Record(o2, map[ProductsField := List([Nested(a), Nested(c)])])];
            TopGroup(UnwoundKeys(orders)) == Some(Group(Some(1), 3))
  {
    var orders := [Record(o1, map[ProductsField := List([Nested(a), Nested(a), Nested(b)])]),
                   Record(o2, map[ProductsField := List([Nested(a), Nested(c)])])];
    var first := ItemKeys(Unwound(orders[0].fields));
    var second := ItemKeys(Unwound(orders[1].fields));
    assert first == [Some(1)] + ([Some(1)] + [Some(2)]);
    assert second == [Some(1)] + [Some(3)];
    OccurrencesCons(Some(2), []);
    OccurrencesCons(Some(3), []);
    assert [Some(2)] == [Some(2)] + [] && [Some(3)] == [Some(3)] + [];
    OccurrencesCons(Some(1), [Some(2)]);
    OccurrencesCons(Some(1), [Some(1)] + [Some(2)]);
    OccurrencesCons(Some(1), [Some(3)]);
    assert orders[1..][0] == orders[1] && orders[1..][1..] == [];
    assert forall k :: PerOrderTotal(orders, k) == Occurrences(first, k) + Occurrences(second, k) by {
      forall k ensures PerOrderTotal(orders, k) == Occurrences(first, k) + Occurrences(second, k) {
        assert PerOrderTotal(orders[1..], k) == Occurrences(second, k) + PerOrderTotal(orders[1..][1..], k);
      }
    }
    var keys := UnwoundKeys(orders);
    assert Occurrences(keys, Some(1)) == 3;
    assert forall k :: k != Some(1) ==> Occurrences(keys, k) <= 1;
  }

  // ---------------------------------------------------------------------
  // The service

  class OrderServices {
    const orders: BaseService
    const products: ProductServices

    ghost predicate Valid()
      reads orders.model, products.base.model
    {
      && orders.model.Valid()
      && products.base.model.Valid()
      && orders.model != products.base.model
    }

    constructor (orders: Collection, products: ProductServices)
      requires orders.Valid() && products.base.model.Valid() && orders != products.base.model
      ensures Valid()
      ensures this.orders.model == orders && this.products == products
    {
      this.orders := new BaseService(orders);
      this.products := products;
    }

    /** `add(orderObject)`: every element of the order's `products` list is
        resolved first; only when all of them resolve is the order, with
        each id replaced by its product record, created. The create is the
        store's own, so its failures propagate unmapped. `updatedOrder` is
        the caller's order object afterwards: its `products` list is
        replaced as soon as every element resolves, whether or not the
        create then succeeds. */
    method Add(order: Fields, fault: bool) returns (r: Result<Record, ServiceError>, updatedOrder: Fields)
      requires Valid()
      modifies orders.model
      ensures Valid()
      ensures products.base.model.docs == old(products.base.model.docs)
      ensures ResolveOrder(order, old(products.base.model.docs)).Err? ==>
                r == Err(ResolveOrder(order, old(products.base.model.docs)).error)
                && orders.model.docs == old(orders.model.docs)
                && updatedOrder == order
      ensures ResolveOrder(order, old(products.base.model.docs)).Ok? ==>
                var stored := order[ProductsField := List(ResolveOrder(order, old(products.base.model.docs)).value)];
                var clash := FirstViolated(orders.model.uniqueIndexes, stored, old(orders.model.docs));
                && updatedOrder == stored
                && (fault ==> r == Err(Raw(OperationFailure)) && orders.model.docs == old(orders.model.docs))
                && (!fault && clash.Some? ==>
                      r == Err(Raw(DuplicateKeyError(clash.value))) && orders.model.docs == old(orders.model.docs))
                && (!fault && clash.None? ==>
                      old(orders.model.nextId) !in old(orders.model.docs)
                      && r == Ok(Record(old(orders.model.nextId), stored))
                      && orders.model.docs == old(orders.model.docs)[old(orders.model.nextId) := stored])
      ensures r.Err? ==> !r.error.InvalidDuplicateEntry?
    {
      updatedOrder := order;
      var list := ProductItems(order);
      if list.Err? {
        return Err(list.error), order;
      }
      var items := list.value;
      var resolved: seq<Value> := [];
      var i := 0;
      while i < |items|
        invariant 0 <= i <= |items|
        invariant |resolved| == i
        invariant orders.model.docs == old(orders.model.docs) && orders.model.nextId == old(orders.model.nextId)
        invariant forall j :: 0 <= j < i ==>
                    Lookup(items[j], products.base.model.docs) == Ok(resolved[j])
      {
        var item := items[i];
        var id := CastId(item);
        if id.None? {
          ResolveFirstFailure(items, products.base.model.docs, i);
          if item == Null {
            return Err(NotFound(IdNotFoundMessage, NullIdContext)), order;
          }
          return Err(Raw(OperationFailure)), order;
        }
        var product := products.base.GetById(id.value);
        if product.Err? {
          ResolveFirstFailure(items, products.base.model.docs, i);
          return Err(NotFound(IdNotFoundMessage, map["id" := item])), order;
        }
        resolved := resolved + [Nested(product.value)];
        i := i + 1;
      }
      assert resolved == Resolve(items, products.base.model.docs).value;
      updatedOrder := order[ProductsField := List(resolved)];
      var created := orders.model.Create(updatedOrder, fault);
      match created
      case Ok(rec) => r := Ok(rec);
      case Err(e) => r := Err(Raw(e));
    }

    /** `deleteOwnOrder(orderId, userId)`: `NotFound` for a missing order,
        `Forbidden` for another user's order, both before anything changes;
        otherwise the order is removed and returned. */
    method DeleteOwnOrder(orderId: Id, userId: Id) returns (r: Result<Record, ServiceError>)
      requires Valid()
      modifies orders.model
      ensures Valid()
      ensures orderId !in old(orders.model.docs) ==>
                r == Err(NotFound(IdNotFoundMessage, IdContext(orderId)))
                && orders.model.docs == old(orders.model.docs)
      ensures orderId in old(orders.model.docs) && !OwnedBy(old(orders.model.docs)[orderId], userId) ==>
                r == Err(Forbidden(ForbiddenMessage)) && orders.model.docs == old(orders.model.docs)
      ensures orderId in old(orders.model.docs) && OwnedBy(old(orders.model.docs)[orderId], userId) ==>
                r == Ok(Record(orderId, old(orders.model.docs)[orderId]))
                && orders.model.docs == old(orders.model.docs) - {orderId}
    {
      var order := orders.GetById(orderId);
      if order.Err? {
        return Err(order.error);
      }
      if !OwnedBy(order.value.fields, userId) {
        return Err(Forbidden(ForbiddenMessage));
      }
      var removed := orders.model.FindByIdAndDelete(orderId);
      match removed
      case Some(rec) => r := Ok(rec);
      case None => assert false;
    }

    /** The group keys the aggregation sees: every order's unwound
        products, orders in creation order. There are none exactly when no
        stored order has an element to unwind. */
    function OrderedKeys(): (keys: seq<GroupKey>)
      reads orders.model
      requires orders.model.Valid()
      ensures |keys| == 0 <==> forall id :: id in orders.model.docs ==> |Unwound(orders.model.docs[id])| == 0
    {
      var found := orders.model.Find(AllRecords);
      assert forall id :: id in orders.model.docs ==> Record(id, orders.model.docs[id]) in found by {
        forall id | id in orders.model.docs ensures Record(id, orders.model.docs[id]) in found {
          AllRecordsMatchesEverything(orders.model.docs[id]);
        }
      }
      assert forall i :: 0 <= i < |found| ==> found[i] in found;
      UnwoundKeys(found)
    }

    /** How many times a product was ordered: the sum, over the stored
        orders, of its occurrences in each order's product list. */
    function TimesOrdered(productId: Id): (n: nat)
      reads orders.model
      requires orders.model.Valid()
      ensures n == PerOrderTotal(orders.model.Find(AllRecords), Some(productId))
      ensures n > 0 <==> Some(productId) in OrderedKeys()
    {
      var keys := OrderedKeys();
      assert Occurrences(keys, Some(productId)) > 0 <==> Some(productId) in keys by {
        if Some(productId) in keys {
          OccurrencesPresent(keys, Some(productId));
        } else {
          OccurrencesAbsent(keys, Some(productId));
        }
      }
      Occurrences(keys, Some(productId))
    }

    /** `getMostOrderedProduct()`: the product record of a most ordered
        product, with `timesOrdered` set to its count. With no ordered
        products at all the code fails reading the first row; when the top
        group is `null` or names a product that no longer exists, it fails
        too. */
    function GetMostOrderedProduct(): (r: Result<Record, ServiceError>)
      reads orders.model, products.base.model
      requires Valid()
      ensures r == Err(TypeError(NoRowMessage)) <==> |OrderedKeys()| == 0
      ensures r == Err(TypeError(NoRowMessage)) <==>
                forall id :: id in orders.model.docs ==> |Unwound(orders.model.docs[id])| == 0
      ensures r.Ok? ==>
                && r.value.id in products.base.model.docs
                && r.value.fields == products.base.model.docs[r.value.id][TimesOrderedField := Num(TimesOrdered(r.value.id))]
                && Some(r.value.id) in OrderedKeys()
                && forall k :: Occurrences(OrderedKeys(), k) <= TimesOrdered(r.value.id)
      ensures r == Err(TypeError(NullKeyMessage)) ==>
                None in OrderedKeys() && forall k :: Occurrences(OrderedKeys(), k) <= Occurrences(OrderedKeys(), None)
      ensures r.Err? && r.error.NotFound? ==>
                exists id :: && id !in products.base.model.docs
                             && Some(id) in OrderedKeys()
                             && (forall k :: Occurrences(OrderedKeys(), k) <= TimesOrdered(id))
                             && r.error == NotFound(IdNotFoundMessage, IdContext(id))
      ensures r.Ok? || r == Err(TypeError(NoRowMessage)) || r == Err(TypeError(NullKeyMessage)) || r.error.NotFound?
    {
      match TopGroup(OrderedKeys())
      case None => Err(TypeError(NoRowMessage))
      case Some(Group(None, _)) => Err(TypeError(NullKeyMessage))
      case Some(Group(Some(id), count)) =>
        if id in products.base.model.docs then
          Ok(Record(id, products.base.model.docs[id][TimesOrderedField := Num(count)]))
        else Err(NotFound(IdNotFoundMessage, IdContext(id)))
    }
  }
  /** A list in strictly ascending id order that holds exactly two records
      is those two, lower id first. */
  lemma {:induction false} AscendingPair(found: seq<Record>, first: Record, second: Record)
    requires first.id < second.id
    requires forall rec :: rec in found <==> rec == first || rec == second
    requires forall i, j :: 0 <= i < j < |found| ==> found[i].id < found[j].id
    ensures found == [first, second]
  {
    assert first in found && second in found;
    assert forall i :: 0 <= i < |found| ==> found[i] == first || found[i] == second by {
      forall i | 0 <= i < |found| ensures found[i] == first || found[i] == second {
        assert found[i] in found;
      }
    }
    assert forall i :: 0 < i < |found| ==> found[i] == second by {
      forall i | 0 < i < |found| ensures found[i] == second {
        assert found[0].id < found[i].id;
      }
    }
    assert forall i :: 0 <= i < |found| - 1 ==> found[i] == first by {
      forall i | 0 <= i < |found| - 1 ensures found[i] == first {
        assert found[i].id < found[|found| - 1].id;
      }
    }
    assert |found| >= 2;
    assert found[1] == second;
    assert |found| == 2;
  }

  /** The worked example on a service: with the orders [A, A, B] and
      [A, C] stored and product A in the product collection,
      `getMostOrderedProduct` returns A's record with `timesOrdered` 3. */
  lemma MostOrderedOnService(s: OrderServices, a: Record, b: Record, c: Record, o1: Id, o2: Id)
    requires s.Valid()
    requires a.id == 1 && b.id == 2 && c.id == 3 && o1 < o2
    requires s.orders.model.docs == map[o1 := map[ProductsField := List([Nested(a), Nested(a), Nested(b)])],
                                        o2 := map[ProductsField := List([Nested(a), Nested(c)])]]
    requires a.id in s.products.base.model.docs
    ensures s.GetMostOrderedProduct() ==
              Ok(Record(a.id, s.products.base.model.docs[a.id][TimesOrderedField := Num(3)]))
  {
    var docs := s.orders.model.docs;
    var r1 := Record(o1, docs[o1]);
    var r2 := Record(o2, docs[o2]);
    var found := s.orders.model.Find(AllRecords);
    AllRecordsMatchesEverything(docs[o1]);
    AllRecordsMatchesEverything(docs[o2]);
    assert forall rec :: rec in found <==> rec == r1 || rec == r2;
    AscendingPair(found, r1, r2);
    MostOrderedExample(a, b, c, o1, o2);
    assert s.OrderedKeys() == UnwoundKeys([r1, r2]);
  }
}
