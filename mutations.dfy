/** The four mutations of crm/schema.py:86-210 over an in-memory store: each
    validates its input against the stored records and then appends at most
    one record per created entity, or, for the bulk mutation, one per item
    that passes. */
module Mutations {
  import opened Wrappers
  import opened Text
  import opened Errors
  import opened Records
  import opened Validators
  import opened Orders
  import opened Customers
  import opened Products

  /** What holds of the three tables between mutations: each table's own
      invariant, and every order linked to stored customers and products. */
  ghost predicate StoreValid(customers: seq<Customer>, nextCustomerId: Id, products: seq<Product>,
                             nextProductId: Id, orders: seq<Order>, nextOrderId: Id)
  {
    && CustomersValid(customers, nextCustomerId)
    && ProductsValid(products, nextProductId)
    && OrdersValid(orders, nextOrderId, customers, products)
  }

  /** A customer record that meets the table's constraints (name and email
      stripped, phone "" or well formed) can be saved under the next id. */
  lemma NewCustomerFits(customers: seq<Customer>, nextCustomerId: Id, products: seq<Product>,
                        nextProductId: Id, orders: seq<Order>, nextOrderId: Id, c: Customer)
    requires StoreValid(customers, nextCustomerId, products, nextProductId, orders, nextOrderId)
    requires c.id == nextCustomerId && Unpadded(c.name) && Unpadded(c.email)
    requires ValidatePhone(Some(c.phone)) == Pass
    ensures StoreValid(customers + [c], nextCustomerId + 1, products, nextProductId, orders, nextOrderId)
  {
    AppendCustomer(customers, nextCustomerId, c);
    OrdersValidMoreCustomers(orders, nextOrderId, customers, products, [c]);
  }

  /** A product record that meets the table's constraints (name stripped and
      non-empty, price positive, stock non-negative) can be saved under the
      next id. */
  lemma NewProductFits(customers: seq<Customer>, nextCustomerId: Id, products: seq<Product>,
                       nextProductId: Id, orders: seq<Order>, nextOrderId: Id, p: Product)
    requires StoreValid(customers, nextCustomerId, products, nextProductId, orders, nextOrderId)
    requires p.id == nextProductId && p.name != "" && Unpadded(p.name) && p.price > 0.0 && p.stock >= 0
    ensures StoreValid(customers, nextCustomerId, products + [p], nextProductId + 1, orders, nextOrderId)
  {
    AppendNewProduct(products, nextProductId, p);
    OrdersValidMoreProducts(orders, nextOrderId, customers, products, [p]);
  }

  /** An id drawn by a save that then raised is never handed out again: the
      tables stay valid with any of the counters moved on by one. */
  lemma DrawnIdsFit(customers: seq<Customer>, nextCustomerId: Id, products: seq<Product>,
                    nextProductId: Id, orders: seq<Order>, nextOrderId: Id)
    requires StoreValid(customers, nextCustomerId, products, nextProductId, orders, nextOrderId)
    ensures StoreValid(customers, nextCustomerId + 1, products, nextProductId, orders, nextOrderId)
    ensures StoreValid(customers, nextCustomerId, products, nextProductId + 1, orders, nextOrderId)
  {
  }

  /** An order planned against the stored customers and products can be
      appended under the next id; and drawing the id without appending (a
      rolled-back insert) keeps the tables valid too. */
  lemma PlannedOrderFits(customers: seq<Customer>, nextCustomerId: Id, products: seq<Product>,
                         nextProductId: Id, orders: seq<Order>, nextOrderId: Id, plan: OrderPlan, date: Timestamp)
    requires StoreValid(customers, nextCustomerId, products, nextProductId, orders, nextOrderId)
    requires plan.customerId in CustomerIds(customers)
    requires plan.productIds != {} && plan.productIds <= ProductIds(products)
    requires UniqueIds(products) ==> plan.totalAmount == SetTotal(products, plan.productIds)
    ensures StoreValid(customers, nextCustomerId, products, nextProductId,
                       orders + [Order(nextOrderId, plan.customerId, plan.productIds, date, plan.totalAmount)],
                       nextOrderId + 1)
    ensures StoreValid(customers, nextCustomerId, products, nextProductId, orders, nextOrderId + 1)
  {
    ValidProductsUnique(products, nextProductId);
    OrdersValidAppend(orders, nextOrderId, customers, products,
                      Order(nextOrderId, plan.customerId, plan.productIds, date, plan.totalAmount));
    OrdersValidSkipId(orders, nextOrderId, customers, products);
  }

  /** A bulk batch keeps the tables valid; the store it leaves is the initial
      customers followed by the created ones, and every input has one entry. */
  lemma BulkFits(customers: seq<Customer>, nextCustomerId: Id, products: seq<Product>,
                 nextProductId: Id, orders: seq<Order>, nextOrderId: Id,
                 inputs: seq<Option<CustomerInput>>, faults: map<nat, string>)
    requires StoreValid(customers, nextCustomerId, products, nextProductId, orders, nextOrderId)
    ensures var b := Bulk(customers, nextCustomerId, inputs, faults);
            && StoreValid(b.store, b.nextId, products, nextProductId, orders, nextOrderId)
            && b.store == customers + b.created
            && |b.created| + |b.errors| == |inputs|
  {
    var b := Bulk(customers, nextCustomerId, inputs, faults);
    BulkKeepsValid(customers, nextCustomerId, inputs, faults);
    BulkAccounts(customers, nextCustomerId, inputs, faults);
    OrdersValidMoreCustomers(orders, nextOrderId, customers, products, b.created);
  }

  /** The customer, product and order tables, with the next primary key each
      hands out. */
  class Store {
    var customers: seq<Customer>
    var products: seq<Product>
    var orders: seq<Order>
    var nextCustomerId: Id
    var nextProductId: Id
    var nextOrderId: Id

    ghost predicate Valid()
      reads this
    {
      StoreValid(customers, nextCustomerId, products, nextProductId, orders, nextOrderId)
    }

    constructor ()
      ensures Valid()
      ensures customers == [] && products == [] && orders == []
    {
      customers := [];
      products := [];
      orders := [];
      nextCustomerId := 1;
      nextProductId := 1;
      nextOrderId := 1;
    }

    /** `CreateCustomer.mutate`: on a failed check nothing changes; when the
        save raises (`saveFault`) its error propagates and no customer is
        stored (the drawn id stays used); otherwise exactly one customer,
        stripped, is appended and the others are kept. */
    method CreateCustomer(name: string, email: string, phone: Option<string>, saveFault: Option<string>)
      returns (r: Result<Customer>)
      requires Valid()
      modifies this
      ensures Valid()
      ensures products == old(products) && orders == old(orders)
      ensures nextProductId == old(nextProductId) && nextOrderId == old(nextOrderId)
      ensures CheckCustomer(old(customers), email, phone).Fail? ==>
                && r == Err(CheckCustomer(old(customers), email, phone).error)
                && customers == old(customers) && nextCustomerId == old(nextCustomerId)
      ensures CheckCustomer(old(customers), email, phone).Pass? && saveFault.Some? ==>
                && r == Err(StorageFault(saveFault.value))
                && customers == old(customers) && nextCustomerId == old(nextCustomerId) + 1
      ensures CheckCustomer(old(customers), email, phone).Pass? && saveFault.None? ==>
                && r == Ok(NewCustomer(old(nextCustomerId), name, email, phone))
                && customers == old(customers) + [r.value] && nextCustomerId == old(nextCustomerId) + 1
    {
      var check := CheckCustomer(customers, email, phone);
      if check.Fail? {
        r := Err(check.error);
      } else {
        StoredPhoneRevalidates(phone);
        r := SaveCustomer(Strip(name), Strip(email), PhoneOrEmpty(phone), saveFault);
      }
    }

    /** `customer.save()` for the record built from a request that passed its
        checks: the next id is drawn; if the save raises, nothing is stored,
        otherwise the record is appended under that id. */
    method SaveCustomer(name: string, email: string, phone: string, saveFault: Option<string>)
      returns (r: Result<Customer>)
      requires Valid()
      requires Unpadded(name) && Unpadded(email) && ValidatePhone(Some(phone)) == Pass
      modifies this
      ensures Valid()
      ensures products == old(products) && orders == old(orders)
      ensures nextProductId == old(nextProductId) && nextOrderId == old(nextOrderId)
      ensures nextCustomerId == old(nextCustomerId) + 1
      ensures saveFault.Some? ==> r == Err(StorageFault(saveFault.value)) && customers == old(customers)
      ensures saveFault.None? ==>
                && r == Ok(Customer(old(nextCustomerId), name, email, phone))
                && customers == old(customers) + [r.value]
    {
      if saveFault.Some? {
        DrawnIdsFit(customers, nextCustomerId, products, nextProductId, orders, nextOrderId);
        nextCustomerId := nextCustomerId + 1;
        r := Err(StorageFault(saveFault.value));
      } else {
        var c := Customer(nextCustomerId, name, email, phone);
        NewCustomerFits(customers, nextCustomerId, products, nextProductId, orders, nextOrderId, c);
        customers, nextCustomerId := customers + [c], nextCustomerId + 1;
        r := Ok(c);
      }
    }

    /** `CreateProduct.mutate`: on a failed check nothing changes; when the
        save raises (`saveFault`) its error propagates and no product is
        stored (the drawn id stays used); otherwise exactly one product, with
        the normalised price and stock and the name stripped, is appended. */
    method CreateProduct(name: string, price: DecimalInput, stock: Option<int>, saveFault: Option<string>)
      returns (r: Result<Product>)
      requires Valid()
      modifies this
      ensures Valid()
      ensures customers == old(customers) && orders == old(orders)
      ensures nextCustomerId == old(nextCustomerId) && nextOrderId == old(nextOrderId)
      ensures CheckProduct(name, price, stock).Err? ==>
                && r == Err(CheckProduct(name, price, stock).error)
                && products == old(products) && nextProductId == old(nextProductId)
      ensures CheckProduct(name, price, stock).Ok? && saveFault.Some? ==>
                && r == Err(StorageFault(saveFault.value))
                && products == old(products) && nextProductId == old(nextProductId) + 1
      ensures CheckProduct(name, price, stock).Ok? && saveFault.None? ==>
                && r == Ok(NewProduct(old(nextProductId), name, CheckProduct(name, price, stock).value))
                && products == old(products) + [r.value] && nextProductId == old(nextProductId) + 1
    {
      var check := CheckProduct(name, price, stock);
      if check.Err? {
        r := Err(check.error);
      } else {
        r := SaveProduct(Strip(name), check.value.price, check.value.stock, saveFault);
      }
    }

    /** `product.save()` for the record built from a request that passed its
        checks: the next id is drawn; if the save raises, nothing is stored,
        otherwise the record is appended under that id. */
    method SaveProduct(name: string, price: real, stock: int, saveFault: Option<string>) returns (r: Result<Product>)
      requires Valid()
      requires name != "" && Unpadded(name) && price > 0.0 && stock >= 0
      modifies this
      ensures Valid()
      ensures customers == old(customers) && orders == old(orders)
      ensures nextCustomerId == old(nextCustomerId) && nextOrderId == old(nextOrderId)
      ensures nextProductId == old(nextProductId) + 1
      ensures saveFault.Some? ==> r == Err(StorageFault(saveFault.value)) && products == old(products)
      ensures saveFault.None? ==>
                && r == Ok(Product(old(nextProductId), name, price, stock))
                && products == old(products) + [r.value]
    {
      if saveFault.Some? {
        DrawnIdsFit(customers, nextCustomerId, products, nextProductId, orders, nextOrderId);
        nextProductId := nextProductId + 1;
        r := Err(StorageFault(saveFault.value));
      } else {
        var p := Product(nextProductId, name, price, stock);
        NewProductFits(customers, nextCustomerId, products, nextProductId, orders, nextOrderId, p);
        products, nextProductId := products + [p], nextProductId + 1;
        r := Ok(p);
      }
    }

    /** `CreateOrder.mutate`: on a failed check nothing changes. Otherwise the
        order is created and linked to its products in one atomic block: if the
        linking raises, the block is rolled back (the drawn id stays used);
        else exactly one order is appended, dated `orderDate` or `now`. */
    method CreateOrder(customerId: string, productIds: seq<Option<string>>, orderDate: Option<Timestamp>,
                       now: Timestamp, linkFault: Option<string>) returns (r: Result<Order>)
      requires Valid()
      modifies this
      ensures Valid()
      ensures customers == old(customers) && products == old(products)
      ensures nextCustomerId == old(nextCustomerId) && nextProductId == old(nextProductId)
      ensures var plan := PlanOrder(old(customers), old(products), customerId, productIds);
              plan.Err? ==> r == Err(plan.error) && orders == old(orders) && nextOrderId == old(nextOrderId)
      ensures var plan := PlanOrder(old(customers), old(products), customerId, productIds);
              plan.Ok? && linkFault.Some? ==>
                && r == Err(StorageFault(linkFault.value))
                && orders == old(orders) && nextOrderId == old(nextOrderId) + 1
      ensures var plan := PlanOrder(old(customers), old(products), customerId, productIds);
              plan.Ok? && linkFault.None? ==>
                && r == Ok(Order(old(nextOrderId), plan.value.customerId, plan.value.productIds,
                                 if orderDate.Some? then orderDate.value else now, plan.value.totalAmount))
                && orders == old(orders) + [r.value] && nextOrderId == old(nextOrderId) + 1
    {
      var plan := PlanOrder(customers, products, customerId, productIds);
      if plan.Err? {
        r := Err(plan.error);
        return;
      }
      var date := if orderDate.Some? then orderDate.value else now;
      r := InsertOrder(plan.value, date, linkFault);
    }

    /** The atomic block of `CreateOrder`: the order row is created, then
        linked to its products. If the linking raises, the block is rolled
        back, so no order remains, though the drawn id stays used. */
    method InsertOrder(p: OrderPlan, date: Timestamp, linkFault: Option<string>) returns (r: Result<Order>)
      requires Valid()
      requires p.customerId in CustomerIds(customers)
      requires p.productIds != {} && p.productIds <= ProductIds(products)
      requires UniqueIds(products) ==> p.totalAmount == SetTotal(products, p.productIds)
      modifies this
      ensures Valid()
      ensures customers == old(customers) && products == old(products)
      ensures nextCustomerId == old(nextCustomerId) && nextProductId == old(nextProductId)
      ensures nextOrderId == old(nextOrderId) + 1
      ensures linkFault.Some? ==> r == Err(StorageFault(linkFault.value)) && orders == old(orders)
      ensures linkFault.None? ==>
                && r == Ok(Order(old(nextOrderId), p.customerId, p.productIds, date, p.totalAmount))
                && orders == old(orders) + [r.value]
    {
      var savepoint := orders;
      var order := Order(nextOrderId, p.customerId, {}, date, p.totalAmount);
      PlannedOrderFits(customers, nextCustomerId, products, nextProductId, orders, nextOrderId, p, date);
      orders := orders + [order];
      nextOrderId := nextOrderId + 1;
      if linkFault.Some? {
        orders := savepoint;
        r := Err(StorageFault(linkFault.value));
      } else {
        order := order.(productIds := p.productIds);
        orders := savepoint + [order];
        r := Ok(order);
      }
    }

    /** `BulkCreateCustomers.mutate`: each item in input order inside its own
        savepoint. The outcome is the bulk fold `Bulk` over the inputs: the
        store ends as the initial customers followed by `created`, and every
        input is either created or reported. */
    method BulkCreateCustomers(inputs: seq<Option<CustomerInput>>, faults: map<nat, string>)
      returns (created: seq<Customer>, errors: seq<BulkError>)
      requires Valid()
      modifies this
      ensures Valid()
      ensures products == old(products) && orders == old(orders)
      ensures nextProductId == old(nextProductId) && nextOrderId == old(nextOrderId)
      ensures var b := Bulk(old(customers), old(nextCustomerId), inputs, faults);
              && created == b.created && errors == b.errors
              && customers == b.store && nextCustomerId == b.nextId
      ensures customers == old(customers) + created
      ensures |created| + |errors| == |inputs|
    {
      ghost var store0 := customers;
      ghost var id0 := nextCustomerId;
      ghost var createdAt: seq<nat> := [];
      created := [];
      errors := [];
      var idx := 0;
      while idx < |inputs|
        invariant 0 <= idx <= |inputs|
        invariant Bulk(store0, id0, inputs[..idx], faults)
                  == BulkState(customers, nextCustomerId, created, createdAt, errors)
        invariant products == old(products) && orders == old(orders)
        invariant nextProductId == old(nextProductId) && nextOrderId == old(nextOrderId)
      {
        BulkUnfold(store0, id0, inputs, faults, idx);
        created, errors, createdAt := BulkItem(idx, inputs[idx], FaultAt(faults, idx), created, errors, createdAt);
        idx := idx + 1;
      }
      assert inputs[..|inputs|] == inputs;
      BulkFits(store0, id0, products, nextProductId, orders, nextOrderId, inputs, faults);
    }
  
    /** One iteration of the bulk loop: the item's checks and save run inside
        a savepoint; a failed check is reported, a save that raises is rolled
        back to the savepoint and reported, and otherwise the record is kept. */
    method BulkItem(idx: nat, c: Option<CustomerInput>, fault: Option<string>, created: seq<Customer>,
                    errors: seq<BulkError>, ghost createdAt: seq<nat>)
      returns (created': seq<Customer>, errors': seq<BulkError>, ghost createdAt': seq<nat>)
      modifies this
      ensures products == old(products) && orders == old(orders)
      ensures nextProductId == old(nextProductId) && nextOrderId == old(nextOrderId)
      ensures BulkState(customers, nextCustomerId, created', createdAt', errors')
              == Step(BulkState(old(customers), old(nextCustomerId), created, createdAt, errors), idx, c,
                      CheckBulkItem(old(customers), c), fault)
    {
      created', errors', createdAt' := created, errors, createdAt;
      var savepoint := customers;
      match CheckBulkItem(customers, c) {
        case Fail(e) =>
          errors' := errors + [BulkError(idx, EmailOf(c), Message(e))];
        case Pass =>
          var obj := NewCustomer(nextCustomerId, c.value.name, c.value.email, c.value.phone);
          customers := customers + [obj];
          nextCustomerId := nextCustomerId + 1;
          if fault.Some? {
            customers := savepoint;
            errors' := errors + [BulkError(idx, EmailOf(c), Message(Unexpected(fault.value)))];
          } else {
            created' := created + [obj];
            createdAt' := createdAt + [idx];
          }
      }
    }
  }
}
