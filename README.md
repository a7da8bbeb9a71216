# CRM mutations: a Dafny model

This project models the write side of a small GraphQL CRM. There are three
tables (customers, products and orders) and four mutations on them:

- `createCustomer` and `bulkCreateCustomers` add customers.
  - The name and email are stored stripped.
  - An email is rejected when a stored customer already has it, ignoring case.
  - A phone must be empty, `+` followed by 10 to 15 digits, or `ddd-ddd-dddd`.
  - The bulk mutation runs each item inside its own savepoint. A batch can
    therefore partly succeed: it returns the created records and one error
    entry for each item that failed.
- `createProduct` adds a product.
  - The price must be a positive decimal.
  - The stock must be non-negative; when absent it defaults to 0.
  - The name must not be blank.
- `createOrder` links one existing customer to existing products.
  - It parses the ids and looks up the customer.
  - It reports the missing product ids in ascending order.
  - It stores the exact decimal sum of the distinct products' prices.
  - It writes the order and its links in one atomic block.

## Modules

- `Text`:
  - Python's `str.strip()`;
  - the ASCII case folding behind `iexact`;
  - `str()` and `int()` for ids; `int()` skips the C locale's whitespace and
    the non-ASCII `isspace()` characters around the digits, but never the
    ASCII separators U+001C to U+001F.
- `Errors`: the error kinds, with their exact message text.
- `Records`: the stored records and the mutation inputs.
- `PhonePattern`:
  - `PHONE_RE` as a regular expression, given the meaning `re.match` gives it;
  - a hand-written predicate for the same format;
  - a proof that the two agree on every string.
- `Validators`: the three field validators.
- `Customers`:
  - the checks and records of `createCustomer`;
  - the bulk mutation as a fold (`Bulk`) over its inputs, one `Step` per item;
  - what the fold guarantees for a whole batch.
- `Products`: the checks and records of `createProduct`.
- `Orders`:
  - the pure part of `createOrder`: id parsing, lookups, the sorted missing
    ids and the total;
  - what every stored order satisfies.
- `Mutations`: the class `Store`. It holds the three tables as sequences,
  together with the next primary key of each. Its public methods are the
  four mutations; each of them requires and keeps the invariant `Valid`, and
  so do the save steps they call (`SaveCustomer`, `SaveProduct`,
  `InsertOrder`). `BulkItem`, one iteration of the bulk loop, is specified
  by the fold's `Step` instead, and the loop re-establishes `Valid` at its
  end.

## Model

| member | source | states |
|---|---|---|
| Validators.ValidateEmailUnique | crm/schema.py:62-64 | fails, with "Email already exists.", exactly when some stored customer's email equals the given email ignoring case |
| Validators.EmailTakenExtends | crm/schema.py:62-64 | once an email is taken, adding records keeps it taken |
| Validators.ValidatePhone | crm/schema.py:67-69 | the only possible failure is the invalid-phone-format error |
| Validators.ValidatePhoneIsRegexMatch | crm/schema.py:67-69 | passes exactly when the phone is absent, empty, or matched by `PHONE_RE` |
| PhonePattern.PhoneMatchIsRegexMatch | crm/schema.py:59 | `PHONE_RE` matches a string exactly when it is `+` and 10-15 digits or `ddd-ddd-dddd`, optionally followed by one newline |
| PhonePattern.RepDigitEnds | crm/schema.py:59 | `\d{lo,hi}` starting at i ends at k exactly when `s[i..k]` is lo to hi digits |
| PhonePattern.AnchoredEnds | crm/schema.py:59 | `^...$` around a pattern matches exactly when the pattern matches from position 0 up to the end, or up to just before a final newline |
| Validators.StoredPhoneRevalidates | crm/schema.py:101 | a phone that passed validation still passes once stored (`phone or ""`) |
| Validators.DocumentedPhonesPass | crm/schema.py:59 | the two documented example phones pass |
| Validators.TrailingNewlinePasses | crm/schema.py:59-69 | a local number followed by "\n" passes |
| Validators.MalformedPhonesFail | crm/schema.py:67-69 | ten bare digits fail, and so does `+` followed by nine digits |
| Validators.ValidatePriceAndStock | crm/schema.py:72-81 | succeeds exactly when the price is a positive decimal and the stock is absent or non-negative; the price is kept and a missing stock becomes 0; a failure carries the error of the first failed check |
| Validators.PriceAndStockIdempotent | crm/schema.py:81 | validating the normalised pair again returns it unchanged |
| Customers.CheckCustomer | crm/schema.py:98-99 | passes exactly when the email as given is not taken and the phone is valid; a failure is the duplicate-email error when the email is taken, else the phone error |
| Customers.AppendNewCustomer | crm/schema.py:101-102 | appending the stripped record of a customer with a valid phone, under the next id, keeps the customer table valid |
| Customers.AppendCustomer | crm/schema.py:101-102 | appending a record with stripped fields and a valid phone under the next id keeps ids ascending, names and emails stripped and phones valid |
| Customers.CreatedEmailIsTaken | crm/schema.py:98-102 | after an email without surrounding whitespace is stored, a later request for it in any case fails as a duplicate |
| Customers.PaddedEmailSlipsThrough | crm/schema.py:98-101 | " a@x.com" passes the check while "a@x.com" is stored, and it is then stored as "a@x.com" a second time |
| Mutations.Store.CreateCustomer | crm/schema.py:97-104 | on a failed check nothing changes and that error is returned; if the save raises, its error is returned and no customer is stored; otherwise exactly one stripped record is appended under the next id; other tables are unchanged; `Valid` is kept |
| Customers.CheckBulkItem | crm/schema.py:124-127 | passes exactly when name and email, as given, are non-empty, the email is not taken and the phone is valid; an empty field gives "Both name and email are required." |
| Customers.StepIsolated | crm/schema.py:122-137 | a failed item or a failed save leaves the store and `created` unchanged and appends one error with the item's index and email; otherwise exactly the item's record is added to the store and to `created` |
| Customers.StepExtends | crm/schema.py:122-137 | one item only appends to `created`, to the positions of the created records and to `errors` |
| Customers.BulkAccounts | crm/schema.py:121-137 | after a batch, `created` and `errors` have one entry per input between them; each position is created or reported, never both; both lists keep input order; each created record is built from its input under a fresh id; each error carries its input's email; the final store is the initial store followed by `created` |
| Customers.BulkPrefix | crm/schema.py:121 | the result after the first m items is a prefix of the final result, and later items only create records from positions at or after m |
| Customers.BulkUnfold | crm/schema.py:121-122 | the state after item j is one step past the state before it, checked against the store as the batch left it |
| Customers.FailedItemReported | crm/schema.py:132-134 | an item whose checks fail against the store at its turn is reported under its index, with its email and the error's message |
| Customers.CommittedVisible | crm/schema.py:128-131 | a record committed before item j is in the store that item j is checked against |
| Customers.BatchDuplicateRejected | crm/schema.py:126-134 | a later item whose email equals, ignoring case, an email committed earlier in the same batch is reported with "Email already exists." |
| Customers.NullItemReported | crm/schema.py:124-137 | a null item is reported under its index, with no email, as "Unexpected error: 'NoneType' object has no attribute 'name'" |
| Customers.MissingFieldRejected | crm/schema.py:124-125 | an item with an empty name or email is reported with "Both name and email are required." |
| Customers.BulkKeepsValid | crm/schema.py:128-133 | a batch keeps the customer table valid, and the id counter never moves back |
| Customers.StepKeepsValid | crm/schema.py:128-133 | one item keeps the customer table valid when a passing check implies a valid phone |
| Customers.PartialSuccessExample | crm/schema.py:115-139 | the batch (A, a@x.com), (no name, b@x.com), (C, a@x.com) creates only A, and reports item 1 as missing a field and item 2 as a duplicate |
| Mutations.Store.BulkCreateCustomers | crm/schema.py:115-139 | the loop's outcome is the fold `Bulk` over the inputs; the customers become the old customers followed by `created`; every input gets exactly one entry; other tables are unchanged; `Valid` is kept |
| Mutations.Store.BulkItem | crm/schema.py:122-137 | one loop iteration leaves exactly the state of one `Step`; a save that raises is rolled back to the savepoint |
| Mutations.BulkFits | crm/schema.py:120-139 | a batch keeps the whole store valid, with the customers extended by exactly `created` |
| Products.CheckProduct | crm/schema.py:154-156 | succeeds exactly when price and stock validate and the stripped name is non-empty; a price or stock error comes before the name error |
| Products.BlankNameRejected | crm/schema.py:155-156 | with a valid price and stock, "Product name is required." is raised exactly when the name is all whitespace |
| Products.AppendNewProduct | crm/schema.py:158-159 | appending under the next id a product with a stripped non-empty name, a positive price and non-negative stock keeps the product table valid |
| Products.ValidProductsUnique | crm/schema.py:158-159 | a valid product table never repeats an id |
| Products.LaptopExample | crm/schema.py:153-160 | " Laptop " at 999.99 with no stock validates to stock 0 and is stored as "Laptop" |
| Mutations.NewProductFits | crm/schema.py:158-159 | a product record with a stripped non-empty name, a positive price and non-negative stock, saved under the next id, keeps the whole store valid |
| Mutations.NewCustomerFits | crm/schema.py:101-102 | a customer record with stripped name and email and a valid phone, saved under the next id, keeps the whole store valid |
| Mutations.DrawnIdsFit | crm/schema.py:102 | an id drawn by a save that then raised can be skipped: the store stays valid with the counter moved on |
| Mutations.Store.SaveCustomer | crm/schema.py:101-102 | `customer.save()` of a record with stripped name and email and a valid phone: the next id is drawn; if the save raises, no customer is stored, otherwise exactly that record is appended under the drawn id; other tables are unchanged; `Valid` is kept |
| Mutations.Store.SaveProduct | crm/schema.py:158-159 | `product.save()` of a record with a stripped non-empty name, a positive price and non-negative stock: the next id is drawn; if the save raises, no product is stored, otherwise exactly that record is appended under the drawn id; other tables are unchanged; `Valid` is kept |
| Mutations.Store.CreateProduct | crm/schema.py:153-160 | on a failed check nothing changes and that error is returned; if the save raises, its error is returned and no product is stored; otherwise exactly one product is appended under the next id, with a stripped name and the normalised price and stock; `Valid` is kept |
| Text.Strip | crm/schema.py:101 | the result has no surrounding whitespace, is an infix of the input, and only whitespace was removed on either side |
| Text.StripIdempotent | crm/schema.py:101 | stripping a stored value again changes nothing |
| Text.StripBlank | crm/schema.py:155 | a string strips to nothing exactly when it is all whitespace |
| Text.ParseInt | crm/schema.py:180-183 | `int()` succeeds exactly when the text left after skipping its whitespace is an optional sign and digit groups of at most 4300 digits; the value is negative only after a minus sign |
| Text.ParseIntToString | crm/schema.py:181 | `int(str(n)) == n` for every integer whose numeral has at most 4300 digits |
| Text.ParseNumeralValue | crm/schema.py:181 | every numeral `int()` accepts has the value of its digit groups, negated after a minus sign |
| Text.GroupsValueSkipsUnderscore | crm/schema.py:181 | an underscore between digit groups does not change the value |
| Text.GroupsValueSkipsLeadingZero | crm/schema.py:181 | a leading zero does not change the value |
| Text.NonCanonicalNumerals | crm/schema.py:181 | "007", "1_000" and "+5" parse to 7, 1000 and 5 |
| Text.ParseTooManyDigits | crm/schema.py:181-183 | the numeral of an integer with more than 4300 digits does not parse, as CPython's `int()` raises on it |
| Text.IntSkipsCSpace | crm/schema.py:181 | `int()` skips a space before and a newline after the digits |
| Text.IntKeepsSeparator | crm/schema.py:181-183 | `int()` rejects a numeral preceded by the separator U+001C, although `strip()` removes that character |
| Text.IntKeepsSeparatorAfterNoBreakSpace | crm/schema.py:181-183 | in a string that is not all ASCII, `int()` skips U+00A0 but still rejects the separator U+001C after it |
| Text.IntSkipsNoBreakSpace | crm/schema.py:181 | `int()` skips the non-ASCII spaces U+00A0 and U+3000 around a numeral |
| Text.EqualIgnoringCaseAt | crm/schema.py:63 | two strings match ignoring case exactly when they have the same length and agree character by character up to case |
| Orders.ParseIds | crm/schema.py:189-192 | on success, one parsed id per requested id, position by position; on failure, some requested id does not parse |
| Orders.ParseIdsOfNumerals | crm/schema.py:190 | ids sent as `str(pk)` parse back to exactly those pks |
| Orders.FindCustomer | crm/schema.py:184-186 | finds a customer exactly when the pk is a stored customer id, and the one found has that id |
| Orders.FoundProducts | crm/schema.py:193 | the found products are exactly the stored products whose id was requested |
| Orders.FoundProductsByIdSet | crm/schema.py:193 | the lookup depends only on the set of requested ids |
| Orders.MissingIds | crm/schema.py:194 | an id is missing exactly when it was requested and names no stored product |
| Orders.SortedIds | crm/schema.py:196 | `sorted(missing)` is strictly increasing and holds exactly the set's elements |
| Orders.LinkProducts | crm/schema.py:193-199 | succeeds exactly when every requested id is stored; it then links the set of requested ids and totals them by the reference `SetTotal`; otherwise the error lists the missing ids, non-empty and in ascending order |
| Orders.OrderTotalIsDistinctSum | crm/schema.py:199 | the summed prices of the found products equal the sum over the distinct requested ids that are stored |
| Orders.RepeatedIdCountedOnce | crm/schema.py:190-199 | requesting an id a second time changes neither the products found nor the total |
| Orders.TwoProductTotal | crm/schema.py:193-199 | products at 999.99 and 499.99, both requested, give exactly 1499.98 |
| Orders.PlanOrder | crm/schema.py:174-199 | the checks in the source's order: an empty list, an unparsable customer id, an unknown customer and an unparsable product id each give their error; success means a stored customer and a non-empty set of stored products totalled by `SetTotal`; a missing-products error lists exactly the missing ids in ascending order |
| Orders.SeparatorCustomerIdInvalid | crm/schema.py:180-183 | a customer id of U+001C followed by "1" is refused as an invalid customer id, although customer 1 exists |
| Orders.SeparatorAfterNoBreakSpaceInvalid | crm/schema.py:180-183 | a customer id of U+00A0, U+001C and "1" is refused as an invalid customer id, although customer 1 exists |
| Orders.SeparatorProductIdInvalid | crm/schema.py:189-192 | the same text as a product id gives "All product IDs must be integers." |
| Orders.OrdersValidAppend | crm/schema.py:203-208 | appending, under the next id, an order for a stored customer and stored products, with the reference total, keeps the order table valid |
| Orders.OrdersValidMoreProducts | crm/schema.py:158-159 | adding products leaves every stored order's links and total valid |
| Orders.OrdersValidMoreCustomers | crm/schema.py:128-129 | adding customers leaves every stored order valid |
| Orders.SetTotalRemove | crm/schema.py:199 | the reference total does not depend on which id is summed first |
| Mutations.PlannedOrderFits | crm/schema.py:202-208 | an order planned against the store keeps it valid once appended, and also when its insert is rolled back |
| Mutations.Store.InsertOrder | crm/schema.py:202-208 | if linking raises, no order remains and the drawn id stays used; otherwise exactly the planned order is appended under the next id; `Valid` is kept |
| Mutations.Store.CreateOrder | crm/schema.py:174-210 | a failed check returns its error and changes nothing; otherwise the order is dated `order_date` or now, and it is appended whole or, if linking raises, not at all; `Valid` is kept |

## Where the model follows the code rather than its evident intent

- Email uniqueness.
  - `validate_email_unique` and its message "Email already exists." are meant
    to keep emails unique.
  - The code compares the email as given, without stripping it, with the stored
    emails, and it stores the stripped email.
  - An email that differs from a stored one only by surrounding whitespace
    therefore passes, and is stored as a duplicate (`PaddedEmailSlipsThrough`).
  - Uniqueness does hold for emails without surrounding whitespace
    (`CreatedEmailIsTaken`, `BatchDuplicateRejected`).
- `createCustomer` does not check that the name or email is non-empty.
  - Its required arguments only exclude a null name or email. Only the bulk
    mutation raises "Both name and email are required." (crm/schema.py:124-125).
  - The bulk check is on the values as given, so a name of only spaces passes
    and is stored as "".
- A blank product name raises "Product name is required.", not the generic
  missing-field error.
- The phone pattern ends in `$`, which Python also matches just before a final
  newline. The model keeps this (`TrailingNewlinePasses`), so such a phone is
  accepted and stored with its newline.
- crm/models.py declares an order's products as a single foreign key, with a
  `quantity` column. The mutation uses them as a many-to-many set
  (`order.products.set(products)`, crm/schema.py:208) and never sets a quantity.
  The model follows the mutation.

## Left out

- The `address`, `description` and `quantity` columns: the mutations never set
  them.
- Text.LowerChar: `iexact` is modelled as ASCII case folding, as SQLite's LIKE
  does. Other back ends fold non-ASCII letters too.
- Text.ParseInt: `int()` also accepts non-ASCII decimal digits, and `\d` in
  `PHONE_RE` matches them too. The model accepts ASCII digits only.
- Validators.ValidatePriceAndStock: `Decimal(str(float))` is given as its
  outcome, either an exact value (`Finite`) or a failed conversion
  (`NotADecimal`). Floating-point rounding and the column's two decimal places
  and ten digits are not modelled. Stock arrives as an integer, so `int(stock)`
  cannot fail.
- Timestamps and `timezone.now()`: the current time is a parameter of
  `CreateOrder`. Dates are opaque integers.
- Mutations.Store.BulkCreateCustomers: a storage failure is given as a fault
  per item (`faults`), and only the save can raise one. A failure of a lookup
  query, or of the outer transaction's commit, is not modelled.
- Mutations.Store.CreateOrder: a storage failure is given as `linkFault`, and
  only the linking step of the atomic block can raise one.
- Primary keys are counters owned by the store, and a rolled-back insert
  still consumes its id, as a PostgreSQL sequence does. Which ids later
  inserts receive after a rollback depends on the database back end: SQLite
  hands the rolled-back id out again. The model never reuses an id.
- Mutations.Store.BulkCreateCustomers: `customers or []` is not modelled; the
  input list is always present. A null item of the list is modelled (`None`);
  an item that is present always has an email attribute.
- Mutations.Store.BulkCreateCustomers: when a save raises, the model rolls
  back to the item's savepoint and goes on with the next item, as the code at
  crm/schema.py:135-137 intends. Django instead marks the outer transaction as
  broken, so the savepoint rollback itself raises and the whole batch fails.
  That behaviour is not modelled.
- Concurrency between requests: each mutation runs alone on the store.
- The GraphQL types, the query resolvers, alx_backend_graphql_crm/schema.py and
  the seeding script are not part of this model.
