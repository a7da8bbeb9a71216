/** How products are created (crm/schema.py:153-160): price and stock are
    validated and normalised, the name must not be blank, and the record is
    saved with its name stripped. */
module Products {
  import opened Wrappers
  import opened Text
  import opened Errors
  import opened Records
  import opened Validators

  /** `CreateProduct`'s checks, in order: price and stock first, then the
      name, which must keep at least one character once stripped. On success,
      the normalised price and stock. */
  function CheckProduct(name: string, price: DecimalInput, stock: Option<int>): (r: Result<PriceStock>)
    ensures r.Ok? <==> ValidatePriceAndStock(price, stock).Ok? && Strip(name) != ""
    ensures r.Ok? ==> r == ValidatePriceAndStock(price, stock) && r.value.price > 0.0 && r.value.stock >= 0
    ensures ValidatePriceAndStock(price, stock).Err? ==> r == ValidatePriceAndStock(price, stock)
    ensures ValidatePriceAndStock(price, stock).Ok? && Strip(name) == "" ==> r == Err(ProductNameRequired)
  {
    match ValidatePriceAndStock(price, stock)
    case Err(e) => Err(e)
    case Ok(v) => if Strip(name) == "" then Err(ProductNameRequired) else Ok(v)
  }

  /** A name made only of whitespace (or empty) is rejected once the price and
      stock are valid; any other name is accepted. */
  lemma BlankNameRejected(name: string, price: DecimalInput, stock: Option<int>)
    requires ValidatePriceAndStock(price, stock).Ok?
    ensures CheckProduct(name, price, stock) == Err(ProductNameRequired) <==>
              forall k :: 0 <= k < |name| ==> IsSpace(name[k])
  {
    StripBlank(name);
  }

  /** The record saved for a product that passed its checks. */
  function NewProduct(id: Id, name: string, v: PriceStock): (p: Product)
  {
    Product(id, Strip(name), v.price, v.stock)
  }

  /** What holds of every stored product list: ids ascending and below the
      next id to hand out, names stripped and non-empty, prices positive and
      stock non-negative. */
  predicate ProductsValid(ps: seq<Product>, nextId: Id)
  {
    && (forall i, j :: 0 <= i < j < |ps| ==> ps[i].id < ps[j].id)
    && (forall i :: 0 <= i < |ps| ==> ps[i].id < nextId)
    && (forall i :: 0 <= i < |ps| ==> ps[i].name != "" && Unpadded(ps[i].name))
    && (forall i :: 0 <= i < |ps| ==> ps[i].price > 0.0 && ps[i].stock >= 0)
  }

  /** Valid product lists never repeat an id. */
  lemma ValidProductsUnique(ps: seq<Product>, nextId: Id)
    requires ProductsValid(ps, nextId)
    ensures UniqueIds(ps)
  {
  }

  /** Appending, under the next id, a product with a non-empty stripped name,
      a positive price and non-negative stock keeps the stored list valid. */
  lemma AppendNewProduct(ps: seq<Product>, nextId: Id, p: Product)
    requires ProductsValid(ps, nextId)
    requires p.id == nextId && p.name != "" && Unpadded(p.name) && p.price > 0.0 && p.stock >= 0
    ensures ProductsValid(ps + [p], nextId + 1)
  {
    var ps' := ps + [p];
    forall i | 0 <= i < |ps'|
      ensures ps'[i].id < nextId + 1
      ensures ps'[i].name != "" && Unpadded(ps'[i].name)
      ensures ps'[i].price > 0.0 && ps'[i].stock >= 0
    {
      if i < |ps| {
        assert ps'[i] == ps[i];
      }
    }
    forall i, j | 0 <= i < j < |ps'| ensures ps'[i].id < ps'[j].id {
      assert ps'[i] == ps[i];
      if j < |ps| {
        assert ps'[j] == ps[j];
      } else {
        assert ps'[j] == p;
      }
    }
  }

  /** The laptop the seeding script creates (name "Laptop", price 999.99),
      sent with padding round its name and no stock: a positive price and the
      default stock give a product with stock 0 and the name stripped. */
  lemma LaptopExample()
    ensures CheckProduct(" Laptop ", Finite(999.99), None) == Ok(PriceStock(999.99, 0))
    ensures NewProduct(1, " Laptop ", PriceStock(999.99, 0)).name == "Laptop"
  {
    StripPadded("Laptop");
    assert " Laptop " == " " + "Laptop" + " ";
  }
}
