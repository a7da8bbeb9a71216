/** The field validators of the mutations (crm/schema.py:58-81): each either
    passes (returning a normalised value where the source returns one) or
    fails with the error the source raises. */
module Validators {
  import opened Wrappers
  import opened Text
  import opened Errors
  import opened Records
  import opened PhonePattern

  // ---------------------------------------------------------------------------
  // validate_email_unique
  // ---------------------------------------------------------------------------

  /** `Customer.objects.filter(email__iexact=email).exists()` */
  predicate EmailTaken(customers: seq<Customer>, email: string)
  {
    exists k :: 0 <= k < |customers| && EqualIgnoringCase(customers[k].email, email)
  }

  /** Fails exactly when some stored customer's email equals `email` up to
      case. `email` is compared as given, not stripped. */
  function ValidateEmailUnique(customers: seq<Customer>, email: string): (r: Outcome)
    ensures r == Pass || r == Fail(DuplicateEmail)
    ensures r.Fail? <==> exists c :: c in customers && EqualIgnoringCase(c.email, email)
  {
    if EmailTaken(customers, email) then Fail(DuplicateEmail) else Pass
  }

  /** Adding records never frees an email: once taken, it stays taken. */
  lemma EmailTakenExtends(customers: seq<Customer>, more: seq<Customer>, email: string)
    requires EmailTaken(customers, email)
    ensures EmailTaken(customers + more, email)
  {
    var k :| 0 <= k < |customers| && EqualIgnoringCase(customers[k].email, email);
    assert (customers + more)[k] == customers[k];
  }

  // ---------------------------------------------------------------------------
  // validate_phone
  // ---------------------------------------------------------------------------

  /** An absent or empty phone passes; any other must have one of the two
      documented shapes (see `ValidatePhoneIsRegexMatch` for `PHONE_RE`). */
  function ValidatePhone(phone: Option<string>): (r: Outcome)
    ensures r == Pass || r == Fail(InvalidPhoneFormat)
  {
    if phone.Some? && phone.value != "" && !PhoneMatch(phone.value) then Fail(InvalidPhoneFormat)
    else Pass
  }

  /** `validate_phone` passes exactly when the phone is absent or empty, or
      when `PHONE_RE.match` succeeds on it. */
  lemma ValidatePhoneIsRegexMatch(phone: Option<string>)
    ensures ValidatePhone(phone).Pass? <==>
              phone.None? || phone.value == "" || RegexMatches(PhoneRe, phone.value)
  {
    if phone.Some? && phone.value != "" {
      PhoneMatchIsRegexMatch(phone.value);
    }
  }

  /** `phone or ""`: the value stored for an optional phone. */
  function PhoneOrEmpty(phone: Option<string>): (r: string)
  {
    if phone.Some? then phone.value else ""
  }

  /** A phone that passed validation passes again once stored: validation
      does not depend on whether the phone was given or stored. */
  lemma StoredPhoneRevalidates(phone: Option<string>)
    requires ValidatePhone(phone) == Pass
    ensures ValidatePhone(Some(PhoneOrEmpty(phone))) == Pass
  {
  }

  /** The two formats the source documents pass. */
  lemma DocumentedPhonesPass()
    ensures ValidatePhone(Some("+12345678901")) == Pass
    ensures ValidatePhone(Some("123-456-7890")) == Pass
  {
    assert InternationalNumber("+12345678901");
    assert LocalNumber("123-456-7890");
  }

  /** As written, `$` lets a local number through with one trailing newline,
      and that newline would be stored with the phone. */
  lemma TrailingNewlinePasses()
    ensures ValidatePhone(Some("123-456-7890\n")) == Pass
  {
    var p := "123-456-7890\n";
    assert p[..|p| - 1] == "123-456-7890";
    assert LocalNumber(p[..|p| - 1]);
  }

  /** Ten digits without separators, or too few digits after "+", fail. */
  lemma MalformedPhonesFail()
    ensures ValidatePhone(Some("1234567890")) == Fail(InvalidPhoneFormat)
    ensures ValidatePhone(Some("+123456789")) == Fail(InvalidPhoneFormat)
  {
    assert !PhoneMatch("1234567890");
    assert !PhoneMatch("+123456789");
  }

  // ---------------------------------------------------------------------------
  // validate_price_and_stock
  // ---------------------------------------------------------------------------

  /** The normalised `(price, stock)` pair. */
  datatype PriceStock = PriceStock(price: real, stock: int)

  /** Succeeds exactly when the price is a positive decimal and the stock is
      absent or non-negative; then the price is kept and a missing stock
      becomes 0. The price is checked first, so a bad price wins over a bad
      stock. */
  function ValidatePriceAndStock(price: DecimalInput, stock: Option<int>): (r: Result<PriceStock>)
    ensures r.Ok? <==> price.Finite? && price.value > 0.0 && (stock.None? || stock.value >= 0)
    ensures r.Ok? ==> r.value.price == price.value && r.value.price > 0.0 && r.value.stock >= 0
    ensures r.Ok? ==> r.value.stock == if stock.Some? then stock.value else 0
    ensures r.Err? && price.NotADecimal? ==> r.error == InvalidPrice
    ensures r.Err? && price.Finite? && price.value <= 0.0 ==> r.error == NonPositivePrice
    ensures r.Err? && price.Finite? && price.value > 0.0 ==> r.error == NegativeStock
  {
    match price
    case NotADecimal => Err(InvalidPrice)
    case Finite(p) =>
      if p <= 0.0 then Err(NonPositivePrice)
      else if stock.Some? && stock.value < 0 then Err(NegativeStock)
      else Ok(PriceStock(p, if stock.Some? then stock.value else 0))
  }

  /** Validating the normalised pair again returns the same pair. */
  lemma PriceAndStockIdempotent(price: DecimalInput, stock: Option<int>)
    requires ValidatePriceAndStock(price, stock).Ok?
    ensures var v := ValidatePriceAndStock(price, stock).value;
            ValidatePriceAndStock(Finite(v.price), Some(v.stock)) == Ok(v)
  {
  }
}
