/** The pure part of `CreateOrder.mutate` (crm/schema.py:174-199): parsing the
    ids, looking up the customer and the products, the sorted list of missing
    product ids, and the exact total. The insert itself is `Store.CreateOrder`. */
module Orders {
  import opened Wrappers
  import opened Text
  import opened Errors
  import opened Records
  import opened Sequences

  // ---------------------------------------------------------------------------
  // Parsing the requested ids
  // ---------------------------------------------------------------------------

  /** `int(pid)` for one requested id: None for a null id (TypeError) or one
      that is not an integer (ValueError). */
  function ParseId(id: Option<string>): (r: Option<int>)
  {
    if id.Some? then ParseInt(id.value) else None
  }

  /** `[int(pid) for pid in product_ids]`: the parsed ids in order, or None
      when some id fails to parse. */
  function ParseIds(ids: seq<Option<string>>): (r: Option<seq<int>>)
    ensures r.Some? ==> |r.value| == |ids|
    ensures r.Some? ==> forall k :: 0 <= k < |ids| ==> ParseId(ids[k]) == Some(r.value[k])
    ensures r.None? ==> exists k :: 0 <= k < |ids| && ParseId(ids[k]).None?
  {
    if ids == [] then Some([])
    else
      var head := ParseId(ids[0]);
      var tail := ParseIds(ids[1..]);
      if head.None? then None
      else if tail.None? then
        var k :| 0 <= k < |ids[1..]| && ParseId(ids[1..][k]).None?;
        assert ids[k + 1] == ids[1..][k];
        None
      else
        ParsedCons(ids, head.value, tail.value);
        Some([head.value] + tail.value)
  }

  /** The first id parsed to `x` and the rest to `xs`: then the whole list
      parsed to `[x] + xs`, position by position. */
  lemma ParsedCons(ids: seq<Option<string>>, x: int, xs: seq<int>)
    requires |ids| > 0 && ParseId(ids[0]) == Some(x) && |xs| == |ids| - 1
    requires forall k :: 0 <= k < |ids[1..]| ==> ParseId(ids[1..][k]) == Some(xs[k])
    ensures forall k :: 0 <= k < |ids| ==> ParseId(ids[k]) == Some(([x] + xs)[k])
  {
    var f := (id: Option<string>) => ParseId(id);
    MapsCons(f, ids, x, xs);
  }

  /** The ids as a client sends them: `str(pk)` for each pk. */
  function Numerals(xs: seq<int>): (ids: seq<Option<string>>)
    ensures |ids| == |xs|
    ensures forall i :: 0 <= i < |xs| ==> ids[i] == Some(IntToString(xs[i]))
  {
    if xs == [] then []
    else
      var rest := Numerals(xs[1..]);
      assert forall i :: 1 <= i < |xs| ==> xs[1..][i - 1] == xs[i];
      [Some(IntToString(xs[0]))] + rest
  }

  /** The ids a client sends as `str(pk)` parse back to those pks, when each
      is within CPython's digit limit. */
  lemma {:induction false} ParseIdsOfNumerals(xs: seq<int>)
    requires forall k :: 0 <= k < |xs| ==> WithinDigitLimit(xs[k])
    ensures ParseIds(Numerals(xs)) == Some(xs)
  {
    if xs != [] {
      assert xs == [xs[0]] + xs[1..];
      assert forall k :: 0 <= k < |xs[1..]| ==> WithinDigitLimit(xs[1..][k]);
      var ids := Numerals(xs);
      assert ids[1..] == Numerals(xs[1..]);
      assert ids[0] == Some(IntToString(xs[0]));
      ParseIntToString(xs[0]);
      ParseIdsOfNumerals(xs[1..]);
    }
  }

  /** The elements of a list, as a set (`set(product_pks)`). */
  function IdSet(pks: seq<int>): (r: set<int>)
    ensures forall x :: x in r <==> x in pks
  {
    set x | x in pks
  }

  // ---------------------------------------------------------------------------
  // Looking up customers and products
  // ---------------------------------------------------------------------------

  /** `Customer.objects.filter(pk=pk).first()` */
  function FindCustomer(customers: seq<Customer>, pk: Id): (r: Option<Customer>)
    ensures r.Some? <==> pk in CustomerIds(customers)
    ensures r.Some? ==> r.value in customers && r.value.id == pk
  {
    if customers == [] then None
    else if customers[0].id == pk then Some(customers[0])
    else FindCustomer(customers[1..], pk)
  }

  /** `Product.objects.filter(pk__in=pks)`: the stored products whose id was
      requested, each once, in store order. */
  function FoundProducts(products: seq<Product>, pks: seq<int>): (r: seq<Product>)
    ensures |r| <= |products|
    ensures forall p :: p in r <==> p in products && p.id in pks
  {
    if products == [] then []
    else (if products[0].id in pks then [products[0]] else []) + FoundProducts(products[1..], pks)
  }

  /** The lookup depends only on which ids were requested, not on how often
      or in which order. */
  lemma {:induction false} FoundProductsByIdSet(products: seq<Product>, a: seq<int>, b: seq<int>)
    requires IdSet(a) == IdSet(b)
    ensures FoundProducts(products, a) == FoundProducts(products, b)
  {
    if products != [] {
      assert products[0].id in a <==> products[0].id in b;
      FoundProductsByIdSet(products[1..], a, b);
    }
  }

  /** `set(product_pks) - {p.pk for p in products}`: the requested ids that
      name no stored product. */
  function MissingIds(products: seq<Product>, pks: seq<int>): (r: set<int>)
    ensures forall x :: x in r <==> x in pks && x !in ProductIds(products)
  {
    var found := FoundProducts(products, pks);
    IdSet(pks) - set p | p in found :: p.id
  }

  // ---------------------------------------------------------------------------
  // sorted(missing)
  // ---------------------------------------------------------------------------

  lemma EmptyOrInhabited(s: set<int>)
    ensures s == {} || exists y :: y in s
  {
    if !(exists y :: y in s) {
      assert s == {};
    }
  }

  /** Some element of a non-empty set. */
  lemma PickFrom(s: set<int>) returns (x: int)
    requires s != {}
    ensures x in s
  {
    EmptyOrInhabited(s);
    x :| x in s;
  }

  /** `m` is the least element of `s`. */
  predicate IsLeast(m: int, s: set<int>)
  {
    m in s && forall y :: y in s ==> m <= y
  }

  lemma {:induction false} MinExists(s: set<int>)
    requires s != {}
    ensures exists m :: IsLeast(m, s)
    decreases |s|
  {
    var x := PickFrom(s);
    var rest := s - {x};
    if rest == {} {
      forall y | y in s ensures x <= y {
        assert y !in rest;
      }
      assert IsLeast(x, s);
    } else {
      MinExists(rest);
      var m :| IsLeast(m, rest);
      var least := if x < m then x else m;
      forall y | y in s ensures least <= y {
        if y != x {
          assert y in rest;
        }
      }
      assert IsLeast(least, s);
    }
  }

  /** The least element of a non-empty set. */
  function MinOf(s: set<int>): (m: int)
    requires s != {}
    ensures m in s && forall y :: y in s ==> m <= y
  {
    MinExists(s);
    var m :| IsLeast(m, s);
    m
  }

  /** `sorted(s)`: the elements of a set in ascending order, each once. */
  function SortedIds(s: set<int>): (r: seq<int>)
    ensures StrictlyIncreasing(r)
    ensures forall x :: x in r <==> x in s
    ensures |r| == |s|
    decreases |s|
  {
    if s == {} then []
    else
      var m := MinOf(s);
      [m] + SortedIds(s - {m})
  }

  // ---------------------------------------------------------------------------
  // The total
  // ---------------------------------------------------------------------------

  /** `sum((p.price for p in products), Decimal("0.00"))`, exactly. */
  function SumPrices(ps: seq<Product>): (total: real)
  {
    if ps == [] then 0.0 else ps[0].price + SumPrices(ps[1..])
  }

  /** The price of the stored product with id `x` (0 when there is none). */
  function PriceOf(products: seq<Product>, x: Id): (price: real)
  {
    if products == [] then 0.0
    else if products[0].id == x then products[0].price
    else PriceOf(products[1..], x)
  }

  /** Reference definition of an order total: the price of each id in the set,
      counted once, summed in ascending id order. */
  function SetTotal(products: seq<Product>, ids: set<Id>): (total: real)
    decreases |ids|
  {
    if ids == {} then 0.0
    else
      var x := MinOf(ids);
      PriceOf(products, x) + SetTotal(products, ids - {x})
  }

  /** The reference total does not depend on which element is taken first. */
  lemma {:induction false} SetTotalRemove(products: seq<Product>, ids: set<Id>, y: Id)
    requires y in ids
    ensures SetTotal(products, ids) == PriceOf(products, y) + SetTotal(products, ids - {y})
    decreases |ids|
  {
    var x := MinOf(ids);
    if x != y {
      SetTotalRemove(products, ids - {x}, y);
      var rest := ids - {y};
      var m := MinOf(rest);
      assert m in ids && x in rest;
      assert m == x;
      assert rest - {x} == ids - {x} - {y};
    }
  }

  lemma {:induction false} PriceOfMember(products: seq<Product>, k: nat)
    requires UniqueIds(products) && k < |products|
    ensures PriceOf(products, products[k].id) == products[k].price
  {
    if k > 0 {
      PriceOfMember(products[1..], k - 1);
    }
  }

  /** The ids of a non-empty list: its head's and its tail's, the head's
      not among the tail's when ids are unique. */
  lemma ProductIdsCons(ps: seq<Product>)
    requires ps != []
    ensures ProductIds(ps) == {ps[0].id} + ProductIds(ps[1..])
    ensures UniqueIds(ps) ==> UniqueIds(ps[1..]) && ps[0].id !in ProductIds(ps[1..])
  {
    var tail := ps[1..];
    forall x | x in ProductIds(ps) ensures x in {ps[0].id} + ProductIds(tail) {
      var k :| 0 <= k < |ps| && ps[k].id == x;
      if k > 0 { assert tail[k - 1] == ps[k]; }
    }
    forall x | x in ProductIds(tail) ensures x in ProductIds(ps) {
      var k :| 0 <= k < |tail| && tail[k].id == x;
      assert ps[k + 1] == tail[k];
    }
    if UniqueIds(ps) {
      forall k | 0 <= k < |tail| ensures tail[k].id != ps[0].id {
        assert tail[k] == ps[k + 1];
      }
    }
  }

  lemma {:induction false} SumFoundIsSetTotal(all: seq<Product>, ps: seq<Product>, pks: seq<int>)
    requires UniqueIds(ps)
    requires forall k :: 0 <= k < |ps| ==> PriceOf(all, ps[k].id) == ps[k].price
    ensures SumPrices(FoundProducts(ps, pks)) == SetTotal(all, IdSet(pks) * ProductIds(ps))
  {
    if ps == [] {
      assert IdSet(pks) * ProductIds(ps) == {};
    } else {
      var p := ps[0];
      var tail := ps[1..];
      ProductIdsCons(ps);
      assert forall k :: 0 <= k < |tail| ==> tail[k] == ps[k + 1];
      SumFoundIsSetTotal(all, tail, pks);
      var t := IdSet(pks) * ProductIds(ps);
      var found := FoundProducts(ps, pks);
      if p.id in pks {
        assert found == [p] + FoundProducts(tail, pks);
        assert SumPrices(found) == p.price + SumPrices(FoundProducts(tail, pks));
        SetTotalRemove(all, t, p.id);
        assert t - {p.id} == IdSet(pks) * ProductIds(tail);
      } else {
        assert found == FoundProducts(tail, pks);
        assert t == IdSet(pks) * ProductIds(tail);
      }
    }
  }

  /** The order total is the sum, over the DISTINCT requested ids that name a
      stored product, of that product's price: a repeated id counts once. */
  lemma OrderTotalIsDistinctSum(products: seq<Product>, pks: seq<int>)
    requires UniqueIds(products)
    ensures SumPrices(FoundProducts(products, pks)) == SetTotal(products, IdSet(pks) * ProductIds(products))
  {
    forall k | 0 <= k < |products| ensures PriceOf(products, products[k].id) == products[k].price {
      PriceOfMember(products, k);
    }
    SumFoundIsSetTotal(products, products, pks);
  }

  /** Requesting an id a second time changes neither the products found nor
      the total. */
  lemma RepeatedIdCountedOnce(products: seq<Product>, pks: seq<int>, x: Id)
    requires x in pks
    ensures FoundProducts(products, pks + [x]) == FoundProducts(products, pks)
    ensures SumPrices(FoundProducts(products, pks + [x])) == SumPrices(FoundProducts(products, pks))
  {
    assert IdSet(pks + [x]) == IdSet(pks);
    FoundProductsByIdSet(products, pks + [x], pks);
  }

  // ---------------------------------------------------------------------------
  // The whole check sequence
  // ---------------------------------------------------------------------------

  /** The product links and total of an order whose products all exist. */
  datatype Links = Links(productIds: set<Id>, totalAmount: real)

  /** crm/schema.py:193-199: fails, naming the missing ids in ascending
      order, unless every requested id names a stored product; otherwise
      links the requested products and totals their prices. */
  function LinkProducts(products: seq<Product>, pks: seq<int>): (r: Result<Links>)
    ensures r.Ok? <==> IdSet(pks) <= ProductIds(products)
    ensures r.Ok? ==> r.value.productIds == IdSet(pks)
    ensures r.Ok? && UniqueIds(products) ==> r.value.totalAmount == SetTotal(products, IdSet(pks))
    ensures r.Err? ==> r.error.ProductsNotFound? && r.error.missing != []
    ensures r.Err? ==> StrictlyIncreasing(r.error.missing)
    ensures r.Err? ==> forall x :: x in r.error.missing <==> x in pks && x !in ProductIds(products)
  {
    var missing := MissingIds(products, pks);
    if missing != {} then
      Err(ProductsNotFound(SortedIds(missing)))
    else
      var total := SumPrices(FoundProducts(products, pks));
      assert IdSet(pks) * ProductIds(products) == IdSet(pks);
      assert UniqueIds(products) ==> total == SetTotal(products, IdSet(pks)) by {
        if UniqueIds(products) {
          OrderTotalIsDistinctSum(products, pks);
        }
      }
      Ok(Links(IdSet(pks), total))
  }

  /** Two products priced 999.99 and 499.99, both requested: the order links
      both and its total is exactly 1499.98. */
  lemma TwoProductTotal()
    ensures LinkProducts([Product(1, "Laptop", 999.99, 10), Product(2, "Phone", 499.99, 5)], [1, 2])
            == Ok(Links({1, 2}, 1499.98))
  {
    var ps := [Product(1, "Laptop", 999.99, 10), Product(2, "Phone", 499.99, 5)];
    assert ps[0].id == 1 && ps[1].id == 2;
    assert IdSet([1, 2]) == {1, 2};
    assert FoundProducts(ps[1..], [1, 2]) == [ps[1]];
    assert FoundProducts(ps, [1, 2]) == ps;
    assert MissingIds(ps, [1, 2]) == {};
  }

  /** What `CreateOrder` has settled before it writes: the customer, the set of
      linked products and the total. */
  datatype OrderPlan = OrderPlan(customerId: Id, productIds: set<Id>, totalAmount: real)

  /** crm/schema.py:176-199, in the source's order: empty list, customer id,
      customer lookup, product ids, missing products, then the total. */
  function PlanOrder(customers: seq<Customer>, products: seq<Product>,
                     customerId: string, productIds: seq<Option<string>>): (r: Result<OrderPlan>)
    ensures productIds == [] ==> r == Err(EmptyProductList)
    ensures productIds != [] && ParseInt(customerId).None? ==> r == Err(InvalidCustomerId)
    ensures (productIds != [] && ParseInt(customerId).Some? &&
             ParseInt(customerId).value !in CustomerIds(customers)) ==> r == Err(CustomerNotFound)
    ensures (productIds != [] && ParseInt(customerId).Some? &&
             ParseInt(customerId).value in CustomerIds(customers) && ParseIds(productIds).None?)
            ==> r == Err(InvalidProductId)
    ensures (productIds != [] && ParseInt(customerId).Some? &&
             ParseInt(customerId).value in CustomerIds(customers) && ParseIds(productIds).Some?)
            ==> && (r.Ok? <==> IdSet(ParseIds(productIds).value) <= ProductIds(products))
                && (r.Err? ==> r.error.ProductsNotFound?)
    ensures r.Ok? ==> ParseInt(customerId) == Some(r.value.customerId)
    ensures r.Ok? ==> r.value.customerId in CustomerIds(customers)
    ensures r.Ok? ==> ParseIds(productIds).Some? && r.value.productIds == IdSet(ParseIds(productIds).value)
    ensures r.Ok? ==> r.value.productIds != {} && r.value.productIds <= ProductIds(products)
    ensures r.Ok? && UniqueIds(products) ==> r.value.totalAmount == SetTotal(products, r.value.productIds)
    ensures r.Err? && r.error.ProductsNotFound? ==>
              && ParseIds(productIds).Some?
              && r.error.missing != []
              && StrictlyIncreasing(r.error.missing)
              && forall x :: x in r.error.missing <==>
                               x in ParseIds(productIds).value && x !in ProductIds(products)
  {
    if productIds == [] then Err(EmptyProductList)
    else
      match ParseInt(customerId)
      case None => Err(InvalidCustomerId)
      case Some(cpk) =>
        if FindCustomer(customers, cpk).None? then Err(CustomerNotFound)
        else
          match ParseIds(productIds)
          case None => Err(InvalidProductId)
          case Some(pks) =>
            match LinkProducts(products, pks)
            case Err(e) => Err(e)
            case Ok(links) =>
              assert pks[0] in IdSet(pks);
              Ok(OrderPlan(cpk, links.productIds, links.totalAmount))
  }

  /** A customer id preceded by the separator U+001C is not an integer to
      `int()`, so the order is refused as naming an invalid customer even
      though customer 1 exists. */
  lemma SeparatorCustomerIdInvalid()
    ensures PlanOrder([Customer(1, "A", "a@x.com", "")], [Product(1, "Laptop", 999.99, 10)],
                      "\U{1c}1", [Some("1")]) == Err(InvalidCustomerId)
  {
    SeparatorNotANumeral();
  }

  /** In a string that is not all ASCII, the separator U+001C is still not
      skipped: a customer id of U+00A0, U+001C and "1" is refused as an
      invalid customer id although customer 1 exists. */
  lemma SeparatorAfterNoBreakSpaceInvalid()
    ensures PlanOrder([Customer(1, "A", "a@x.com", "")], [Product(1, "Laptop", 999.99, 10)],
                      "\U{a0}\U{1c}1", [Some("1")]) == Err(InvalidCustomerId)
  {
    IntKeepsSeparatorAfterNoBreakSpace();
  }

  /** The same text as a product id makes the id list invalid. */
  lemma SeparatorProductIdInvalid()
    ensures PlanOrder([Customer(1, "A", "a@x.com", "")], [Product(1, "Laptop", 999.99, 10)],
                      "1", [Some("\U{a0}\U{1c}1")]) == Err(InvalidProductId)
  {
    IntKeepsSeparatorAfterNoBreakSpace();
    ParseIntToString(1);
    assert IntToString(1) == "1";
    assert ParseIds([Some("\U{a0}\U{1c}1")]) == None;
  }

  // ---------------------------------------------------------------------------
  // Stored orders
  // ---------------------------------------------------------------------------

  /** What holds of every stored order list: ids ascending and below the next
      id to hand out; each order names a stored customer and a non-empty set of
      stored products, and its total is the distinct-product sum of their prices. */
  ghost predicate OrdersValid(orders: seq<Order>, nextId: Id, customers: seq<Customer>, products: seq<Product>)
  {
    && (forall i, j :: 0 <= i < j < |orders| ==> orders[i].id < orders[j].id)
    && (forall i :: 0 <= i < |orders| ==> orders[i].id < nextId)
    && (forall i :: 0 <= i < |orders| ==> orders[i].customerId in CustomerIds(customers))
    && (forall i :: 0 <= i < |orders| ==>
          orders[i].productIds != {} && orders[i].productIds <= ProductIds(products))
    && (forall i :: 0 <= i < |orders| ==> orders[i].totalAmount == SetTotal(products, orders[i].productIds))
  }

  /** Records added after the first with a given id do not change its price. */
  lemma {:induction false} PriceOfExtend(products: seq<Product>, more: seq<Product>, x: Id)
    requires x in ProductIds(products)
    ensures PriceOf(products + more, x) == PriceOf(products, x)
  {
    assert products != [];
    if products[0].id != x {
      ProductIdsCons(products);
      assert (products + more)[1..] == products[1..] + more;
      PriceOfExtend(products[1..], more, x);
    }
  }

  /** Adding products leaves the total of an order over existing products as
      it was. */
  lemma {:induction false} SetTotalExtend(products: seq<Product>, more: seq<Product>, ids: set<Id>)
    requires ids <= ProductIds(products)
    ensures SetTotal(products + more, ids) == SetTotal(products, ids)
    decreases |ids|
  {
    if ids != {} {
      var x := MinOf(ids);
      PriceOfExtend(products, more, x);
      SetTotalExtend(products, more, ids - {x});
    }
  }

  /** The order list stays valid as customers are added. */
  lemma OrdersValidMoreCustomers(orders: seq<Order>, nextId: Id, customers: seq<Customer>, products: seq<Product>,
                                 more: seq<Customer>)
    requires OrdersValid(orders, nextId, customers, products)
    ensures OrdersValid(orders, nextId, customers + more, products)
  {
    var cs := customers + more;
    forall i | 0 <= i < |orders| ensures orders[i].customerId in CustomerIds(cs) {
      var k :| 0 <= k < |customers| && customers[k].id == orders[i].customerId;
      assert cs[k] == customers[k];
    }
  }

  /** The order list stays valid as products are added: the links still
      resolve and every total is unchanged. */
  lemma OrdersValidMoreProducts(orders: seq<Order>, nextId: Id, customers: seq<Customer>, products: seq<Product>,
                                more: seq<Product>)
    requires OrdersValid(orders, nextId, customers, products)
    ensures OrdersValid(orders, nextId, customers, products + more)
  {
    var ps := products + more;
    forall i | 0 <= i < |orders|
      ensures orders[i].productIds <= ProductIds(ps)
      ensures orders[i].totalAmount == SetTotal(ps, orders[i].productIds)
    {
      forall x | x in orders[i].productIds ensures x in ProductIds(ps) {
        var j :| 0 <= j < |products| && products[j].id == x;
        assert ps[j] == products[j];
      }
      SetTotalExtend(products, more, orders[i].productIds);
    }
  }

  /** Moving the id counter forward keeps the order list valid. */
  lemma OrdersValidSkipId(orders: seq<Order>, nextId: Id, customers: seq<Customer>, products: seq<Product>)
    requires OrdersValid(orders, nextId, customers, products)
    ensures OrdersValid(orders, nextId + 1, customers, products)
  {
  }

  /** Appending an order planned against the current store, under the next
      id, keeps the order list valid. */
  lemma OrdersValidAppend(orders: seq<Order>, nextId: Id, customers: seq<Customer>, products: seq<Product>,
                          o: Order)
    requires OrdersValid(orders, nextId, customers, products)
    requires o.id == nextId && o.customerId in CustomerIds(customers)
    requires o.productIds != {} && o.productIds <= ProductIds(products)
    requires o.totalAmount == SetTotal(products, o.productIds)
    ensures OrdersValid(orders + [o], nextId + 1, customers, products)
  {
    var os := orders + [o];
    forall i | 0 <= i < |os|
      ensures os[i].id < nextId + 1
      ensures os[i].customerId in CustomerIds(customers)
      ensures os[i].productIds != {} && os[i].productIds <= ProductIds(products)
      ensures os[i].totalAmount == SetTotal(products, os[i].productIds)
    {
      if i < |orders| {
        assert os[i] == orders[i];
      }
    }
    forall i, j | 0 <= i < j < |os| ensures os[i].id < os[j].id {
      assert os[i] == orders[i];
      if j < |orders| {
        assert os[j] == orders[j];
      }
    }
  }
}
