/** The three stored entities and the mutation inputs and outputs, with the
    fields the mutations read or write (crm/models.py gives the columns). */
module Records {
  import opened Wrappers

  /** A database primary key (Django AutoField: positive integers). */
  type Id = int

  /** An instant, as `order_date` and `timezone.now()` produce. */
  type Timestamp = int

  datatype Customer = Customer(id: Id, name: string, email: string, phone: string)

  /** `price` is an exact decimal, modelled as a real number. */
  datatype Product = Product(id: Id, name: string, price: real, stock: int)

  /** `productIds` are the order's product links (a many-to-many set);
      `totalAmount` is the price sum taken when the order was created. */
  datatype Order = Order(id: Id, customerId: Id, productIds: set<Id>,
                         orderDate: Timestamp, totalAmount: real)

  /** One element of the `customers` argument of the bulk mutation; `phone`
      is optional (None when the client omits it). */
  datatype CustomerInput = CustomerInput(name: string, email: string, phone: Option<string>)

  /** One entry of the bulk mutation's `errors` list. */
  datatype BulkError = BulkError(index: nat, email: Option<string>, message: string)

  /** The price argument after `Decimal(str(price))`: an exact value, or the
      conversion raised. */
  datatype DecimalInput = Finite(value: real) | NotADecimal

  /** The ids of a list of customers, as a set. */
  function CustomerIds(cs: seq<Customer>): (r: set<Id>)
    ensures forall x :: x in r <==> exists k :: 0 <= k < |cs| && cs[k].id == x
  {
    set k | 0 <= k < |cs| :: cs[k].id
  }

  /** The ids of a list of products, as a set: `CustomerIds` for the other
      record type (Dafny has no common supertype for the two records). */
  function ProductIds(ps: seq<Product>): (r: set<Id>)
    ensures forall x :: x in r <==> exists k :: 0 <= k < |ps| && ps[k].id == x
  {
    set k | 0 <= k < |ps| :: ps[k].id
  }

  /** No two records of the list share an id. */
  predicate UniqueIds(ps: seq<Product>)
  {
    forall i, j :: 0 <= i < j < |ps| ==> ps[i].id != ps[j].id
  }
}
