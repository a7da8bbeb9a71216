/** How customers are created (crm/schema.py:97-139): the checks a new customer
    must pass, the record it becomes, and the bulk engine as a fold over its
    inputs that yields the new store, the created records and the errors. */
module Customers {
  import opened Wrappers
  import opened Text
  import opened Errors
  import opened Records
  import opened Validators
  import opened Sequences

  // ---------------------------------------------------------------------------
  // One customer
  // ---------------------------------------------------------------------------

  /** The checks `CreateCustomer` runs, in order: uniqueness of the email as
      given (not stripped), then the phone format. */
  function CheckCustomer(customers: seq<Customer>, email: string, phone: Option<string>): (r: Outcome)
    ensures r.Pass? <==> !EmailTaken(customers, email) && ValidatePhone(phone).Pass?
    ensures r.Fail? ==> r.error == if EmailTaken(customers, email) then DuplicateEmail else InvalidPhoneFormat
  {
    match ValidateEmailUnique(customers, email)
    case Fail(e) => Fail(e)
    case Pass => ValidatePhone(phone)
  }

  /** The record saved for a customer that passed its checks: name and email
      stripped, a missing phone stored as "". */
  function NewCustomer(id: Id, name: string, email: string, phone: Option<string>): (r: Customer)
  {
    Customer(id, Strip(name), Strip(email), PhoneOrEmpty(phone))
  }

  /** Every stored phone is "" or in a valid format. */
  predicate PhonesValid(cs: seq<Customer>)
  {
    forall i :: 0 <= i < |cs| ==> ValidatePhone(Some(cs[i].phone)) == Pass
  }

  /** What holds of every stored customer list: ids ascending and below the
      next id to hand out, names and emails stripped, phones in a valid format. */
  predicate CustomersValid(cs: seq<Customer>, nextId: Id)
  {
    && (forall i, j :: 0 <= i < j < |cs| ==> cs[i].id < cs[j].id)
    && (forall i :: 0 <= i < |cs| ==> cs[i].id < nextId)
    && (forall i :: 0 <= i < |cs| ==> Unpadded(cs[i].name) && Unpadded(cs[i].email))
    && PhonesValid(cs)
  }

  lemma PhonesValidAppend(cs: seq<Customer>, c: Customer)
    requires PhonesValid(cs) && ValidatePhone(Some(c.phone)) == Pass
    ensures PhonesValid(cs + [c])
  {
    var cs' := cs + [c];
    assert forall i :: 0 <= i < |cs| ==> cs'[i].phone == cs[i].phone;
    assert cs'[|cs|].phone == c.phone;
  }

  /** Appending a customer that passed the phone check under the next id keeps
      the stored list valid, and the id counter moves past it. */
  lemma AppendNewCustomer(cs: seq<Customer>, nextId: Id, name: string, email: string,
                           phone: Option<string>)
    requires CustomersValid(cs, nextId)
    requires ValidatePhone(phone) == Pass
    ensures CustomersValid(cs + [NewCustomer(nextId, name, email, phone)], nextId + 1)
  {
    StoredPhoneRevalidates(phone);
    AppendCustomer(cs, nextId, NewCustomer(nextId, name, email, phone));
  }

  /** Appending, under the next id, a record with stripped name and email and
      a phone that passes the format check keeps the stored list valid. */
  lemma AppendCustomer(cs: seq<Customer>, nextId: Id, c: Customer)
    requires CustomersValid(cs, nextId)
    requires c.id == nextId && Unpadded(c.name) && Unpadded(c.email) && ValidatePhone(Some(c.phone)) == Pass
    ensures CustomersValid(cs + [c], nextId + 1)
  {
    var cs' := cs + [c];
    PhonesValidAppend(cs, c);
    forall i | 0 <= i < |cs'|
      ensures cs'[i].id < nextId + 1
      ensures Unpadded(cs'[i].name) && Unpadded(cs'[i].email)
    {
      if i < |cs| {
        assert cs'[i] == cs[i];
      }
    }
    forall i, j | 0 <= i < j < |cs'| ensures cs'[i].id < cs'[j].id {
      assert cs'[i] == cs[i];
      if j < |cs| {
        assert cs'[j] == cs[j];
      } else {
        assert cs'[j] == c;
      }
    }
  }

  /** A customer created from an email with no surrounding whitespace makes a
      later request for the same email, in any case and with any phone, fail
      as a duplicate. */
  lemma CreatedEmailIsTaken(cs: seq<Customer>, nextId: Id, name: string, email: string,
                            phone: Option<string>, again: string, laterPhone: Option<string>)
    requires Unpadded(email) && EqualIgnoringCase(email, again)
    ensures CheckCustomer(cs + [NewCustomer(nextId, name, email, phone)], again, laterPhone) == Fail(DuplicateEmail)
  {
    var c := NewCustomer(nextId, name, email, phone);
    StripUnpadded(email);
    LastEmailTaken(cs, c, again);
  }

  /** A record whose email matches `again` up to case, appended last, takes it. */
  lemma LastEmailTaken(cs: seq<Customer>, c: Customer, again: string)
    requires EqualIgnoringCase(c.email, again)
    ensures EmailTaken(cs + [c], again)
  {
    assert (cs + [c])[|cs|] == c;
  }

  /** As written, the uniqueness check compares the untrimmed input with the
      stripped stored email, so an email differing from a stored one only by
      surrounding whitespace passes and is then stored as a duplicate. */
  lemma PaddedEmailSlipsThrough()
    ensures var cs := [Customer(1, "A", "a@x.com", "")];
            && CheckCustomer(cs, " a@x.com", None) == Pass
            && NewCustomer(2, "B", " a@x.com", None).email == cs[0].email
  {
    var cs := [Customer(1, "A", "a@x.com", "")];
    DifferentLengthsDiffer(cs[0].email, " a@x.com");
    assert !EmailTaken(cs, " a@x.com") by {
      forall k | 0 <= k < |cs| ensures !EqualIgnoringCase(cs[k].email, " a@x.com") {
        assert k == 0;
      }
    }
    assert " a@x.com" == " " + "a@x.com";
    StripLeadingSpace("a@x.com");
  }

  // ---------------------------------------------------------------------------
  // The bulk engine
  // ---------------------------------------------------------------------------

  /** `str(e)` of the AttributeError raised by reading `c.name` when the
      item `c` is null. */
  const NoneHasNoName: string := "'NoneType' object has no attribute 'name'"

  /** The checks of one bulk item, in order: a null item raises on `c.name`
      and is reported as an unexpected error; then name and email must be
      non-empty (as given, before stripping); then the same checks as
      `CreateCustomer`. */
  function CheckBulkItem(customers: seq<Customer>, c: Option<CustomerInput>): (r: Outcome)
    ensures c.None? ==> r == Fail(Unexpected(NoneHasNoName))
    ensures r.Pass? <==>
              && c.Some? && c.value.name != "" && c.value.email != ""
              && !EmailTaken(customers, c.value.email) && ValidatePhone(c.value.phone).Pass?
    ensures c.Some? && (c.value.name == "" || c.value.email == "") ==> r == Fail(MissingRequiredField)
  {
    match c
    case None => Fail(Unexpected(NoneHasNoName))
    case Some(x) =>
      if x.name == "" || x.email == "" then Fail(MissingRequiredField)
      else CheckCustomer(customers, x.email, x.phone)
  }

  /** `getattr(c, "email", None)`: the email an error entry reports. */
  function EmailOf(c: Option<CustomerInput>): (r: Option<string>)
    ensures r.Some? <==> c.Some?
  {
    if c.Some? then Some(c.value.email) else None
  }

  /** The accumulators of the bulk loop: the store as the batch sees it, the
      next id, the created records, the input positions they came from, and
      the error entries. */
  datatype BulkState = BulkState(store: seq<Customer>, nextId: Id, created: seq<Customer>,
                                 createdAt: seq<nat>, errors: seq<BulkError>)

  /** The storage fault, if any, raised when item `i` is saved. */
  function FaultAt(faults: map<nat, string>, i: nat): (r: Option<string>)
  {
    if i in faults then Some(faults[i]) else None
  }

  /** One item inside its savepoint, given the outcome `check` of its checks.
      A failed check records the error; a save that raises is rolled back (the
      id it drew stays used) and records "Unexpected error: ..."; otherwise the
      record is committed and created. */
  function Step(st: BulkState, idx: nat, c: Option<CustomerInput>, check: Outcome,
                fault: Option<string>): (s: BulkState)
    requires check.Pass? ==> c.Some?
  {
    match check
    case Fail(e) => st.(errors := st.errors + [BulkError(idx, EmailOf(c), Message(e))])
    case Pass =>
      if fault.Some? then
        st.(nextId := st.nextId + 1,
            errors := st.errors + [BulkError(idx, EmailOf(c), Message(Unexpected(fault.value)))])
      else
        var obj := NewCustomer(st.nextId, c.value.name, c.value.email, c.value.phone);
        st.(store := st.store + [obj], nextId := st.nextId + 1,
            created := st.created + [obj], createdAt := st.createdAt + [idx])
  }

  /** The bulk mutation over `inputs`, starting from `store`: each item in
      input order, each seeing the items committed before it. */
  function Bulk(store: seq<Customer>, nextId: Id, inputs: seq<Option<CustomerInput>>,
                faults: map<nat, string>): (r: BulkState)
    decreases |inputs|
  {
    if inputs == [] then BulkState(store, nextId, [], [], [])
    else
      var n := |inputs| - 1;
      var prev := Bulk(store, nextId, inputs[..n], faults);
      Step(prev, n, inputs[n], CheckBulkItem(prev.store, inputs[n]), FaultAt(faults, n))
  }

  /** A failing item leaves the store as it was; a passing one adds exactly
      its own record, to both the store and `created`. */
  lemma StepIsolated(st: BulkState, idx: nat, c: Option<CustomerInput>, check: Outcome, fault: Option<string>)
    requires check.Pass? ==> c.Some?
    ensures var s := Step(st, idx, c, check, fault);
            || (&& (check.Fail? || fault.Some?)
                && s.store == st.store && s.created == st.created
                && |s.errors| == |st.errors| + 1 && s.errors[..|st.errors|] == st.errors
                && s.errors[|st.errors|].index == idx && s.errors[|st.errors|].email == EmailOf(c))
            || (&& check.Pass? && fault.None?
                && s.store == st.store + [NewCustomer(st.nextId, c.value.name, c.value.email, c.value.phone)]
                && s.created == st.created + [NewCustomer(st.nextId, c.value.name, c.value.email, c.value.phone)]
                && s.errors == st.errors)
  {
  }

  /** Each step only appends: to `created` and `createdAt` (its own position),
      or to `errors`. */
  lemma StepExtends(st: BulkState, idx: nat, c: Option<CustomerInput>, check: Outcome, fault: Option<string>)
    requires check.Pass? ==> c.Some?
    ensures var s := Step(st, idx, c, check, fault);
            && st.created <= s.created && st.createdAt <= s.createdAt && st.errors <= s.errors
            && (s.createdAt == st.createdAt || s.createdAt == st.createdAt + [idx])
  {
  }

  function ErrorIndices(errors: seq<BulkError>): (r: seq<int>)
    ensures |r| == |errors| && forall i :: 0 <= i < |errors| ==> r[i] == errors[i].index
  {
    seq(|errors|, i requires 0 <= i < |errors| => errors[i].index)
  }

  lemma ErrorIndicesAppend(errors: seq<BulkError>, e: BulkError)
    ensures ErrorIndices(errors + [e]) == ErrorIndices(errors) + [e.index]
  {
    var es := errors + [e];
    assert forall i :: 0 <= i < |errors| ==> es[i] == errors[i];
  }

  /** The first `n` items gave one entry each, and the store grew by exactly
      the created records. */
  predicate Tallied(store: seq<Customer>, nextId: Id, n: nat, st: BulkState)
  {
    && |st.created| + |st.errors| == n
    && |st.createdAt| == |st.created|
    && st.store == store + st.created
    && st.nextId >= nextId + |st.created|
  }

  /** Both lists are in input order and name only positions below `n`. */
  predicate InOrder(n: nat, st: BulkState)
  {
    && StrictlyIncreasing(st.createdAt) && Below(st.createdAt, n)
    && StrictlyIncreasing(ErrorIndices(st.errors)) && Below(ErrorIndices(st.errors), n)
  }

  /** Each position below `n` was created or reported, and not both. */
  predicate Partitioned(n: nat, st: BulkState)
  {
    Splits(n, st.createdAt, ErrorIndices(st.errors))
  }

  /** `x` is present, and `c` is the record `CreateCustomer` would build
      from it under its id. */
  predicate BuiltFrom(c: Customer, x: Option<CustomerInput>)
  {
    x.Some? && c == NewCustomer(c.id, x.value.name, x.value.email, x.value.phone)
  }

  /** Each created record is built, under a fresh id, from the input at its
      position; each error entry carries the email of the input it reports. */
  predicate FromInputs(nextId: Id, inputs: seq<Option<CustomerInput>>, st: BulkState)
    requires |st.createdAt| == |st.created|
    requires forall i :: 0 <= i < |st.createdAt| ==> st.createdAt[i] < |inputs|
    requires forall i :: 0 <= i < |st.errors| ==> st.errors[i].index < |inputs|
  {
    && (forall i :: 0 <= i < |st.created| ==>
          nextId <= st.created[i].id < st.nextId && BuiltFrom(st.created[i], inputs[st.createdAt[i]]))
    && (forall i :: 0 <= i < |st.errors| ==> st.errors[i].email == EmailOf(inputs[st.errors[i].index]))
  }

  /** What the bulk loop keeps true after the first `n` items: every position
      below `n` is accounted for exactly once, in order, and the store is the
      initial store followed by the created records, each built from its input. */
  predicate Accounted(store: seq<Customer>, nextId: Id, inputs: seq<Option<CustomerInput>>, n: nat,
                      st: BulkState)
    requires n <= |inputs|
  {
    && Tallied(store, nextId, n, st)
    && InOrder(n, st)
    && Partitioned(n, st)
    && FromInputs(nextId, inputs, st)
  }

  lemma StepTallied(store: seq<Customer>, nextId: Id, n: nat, st: BulkState,
                    c: Option<CustomerInput>, check: Outcome, fault: Option<string>)
    requires check.Pass? ==> c.Some?
    requires Tallied(store, nextId, n, st)
    ensures Tallied(store, nextId, n + 1, Step(st, n, c, check, fault))
  {
    var s := Step(st, n, c, check, fault);
    if check.Pass? && fault.None? {
      var obj := NewCustomer(st.nextId, c.value.name, c.value.email, c.value.phone);
      assert s.created == st.created + [obj] && s.store == st.store + [obj];
      AppendToConcat(store, st.created, obj);
    } else {
      assert s.created == st.created && s.store == st.store && s.createdAt == st.createdAt;
    }
  }

  lemma StepInOrder(n: nat, st: BulkState, c: Option<CustomerInput>, check: Outcome, fault: Option<string>)
    requires check.Pass? ==> c.Some?
    requires |st.createdAt| == |st.created| && InOrder(n, st)
    ensures InOrder(n + 1, Step(st, n, c, check, fault))
  {
    var s := Step(st, n, c, check, fault);
    if check.Pass? && fault.None? {
      assert s.createdAt == st.createdAt + [n] && s.errors == st.errors;
      AppendBelow(st.createdAt, n);
      BelowRaise(ErrorIndices(st.errors), n);
    } else {
      var e := s.errors[|st.errors|];
      assert s.errors == st.errors + [e] && e.index == n && s.createdAt == st.createdAt;
      ErrorIndicesAppend(st.errors, e);
      AppendBelow(ErrorIndices(st.errors), n);
      BelowRaise(st.createdAt, n);
    }
  }

  lemma StepPartitioned(n: nat, st: BulkState, c: Option<CustomerInput>, check: Outcome,
                        fault: Option<string>)
    requires check.Pass? ==> c.Some?
    requires InOrder(n, st) && Partitioned(n, st)
    ensures Partitioned(n + 1, Step(st, n, c, check, fault))
  {
    var s := Step(st, n, c, check, fault);
    if check.Pass? && fault.None? {
      assert s.createdAt == st.createdAt + [n] && s.errors == st.errors;
      SplitsLeft(n, st.createdAt, ErrorIndices(st.errors));
    } else {
      var e := s.errors[|st.errors|];
      assert s.errors == st.errors + [e] && e.index == n && s.createdAt == st.createdAt;
      ErrorIndicesAppend(st.errors, e);
      SplitsRight(n, st.createdAt, ErrorIndices(st.errors));
    }
  }

  lemma StepFromInputs(nextId: Id, inputs: seq<Option<CustomerInput>>, n: nat, st: BulkState,
                        check: Outcome, fault: Option<string>)
    requires n < |inputs| && |st.createdAt| == |st.created| && InOrder(n, st)
    requires check.Pass? ==> inputs[n].Some?
    requires st.nextId >= nextId && FromInputs(nextId, inputs, st)
    ensures InOrder(n + 1, Step(st, n, inputs[n], check, fault))
    ensures FromInputs(nextId, inputs, Step(st, n, inputs[n], check, fault))
  {
    StepInOrder(n, st, inputs[n], check, fault);
    var s := Step(st, n, inputs[n], check, fault);
    if check.Pass? && fault.None? {
      var x := inputs[n].value;
      var obj := NewCustomer(st.nextId, x.name, x.email, x.phone);
      assert BuiltFrom(obj, inputs[n]);
      assert s.created == st.created + [obj] && s.createdAt == st.createdAt + [n];
      assert s.errors == st.errors && s.nextId == st.nextId + 1;
      forall i | 0 <= i < |s.created|
        ensures nextId <= s.created[i].id < s.nextId && BuiltFrom(s.created[i], inputs[s.createdAt[i]])
      {
        if i < |st.created| {
          assert s.created[i] == st.created[i] && s.createdAt[i] == st.createdAt[i];
        }
      }
    } else {
      var e := s.errors[|st.errors|];
      assert s.errors == st.errors + [e] && e.index == n && e.email == EmailOf(inputs[n]);
      assert s.created == st.created && s.createdAt == st.createdAt && s.nextId >= st.nextId;
      forall i | 0 <= i < |s.errors| ensures s.errors[i].email == EmailOf(inputs[s.errors[i].index]) {
        if i < |st.errors| {
          assert s.errors[i] == st.errors[i];
        }
      }
    }
  }

  lemma {:induction false} StepAccounted(store: seq<Customer>, nextId: Id, inputs: seq<Option<CustomerInput>>,
                                        n: nat, st: BulkState, check: Outcome, fault: Option<string>)
    requires n < |inputs| && Accounted(store, nextId, inputs, n, st)
    requires check.Pass? ==> inputs[n].Some?
    ensures Accounted(store, nextId, inputs, n + 1, Step(st, n, inputs[n], check, fault))
  {
    StepTallied(store, nextId, n, st, inputs[n], check, fault);
    StepFromInputs(nextId, inputs, n, st, check, fault);
    StepPartitioned(n, st, inputs[n], check, fault);
  }

  /** The bulk result accounts for every input exactly once: `created` and
      `errors` together have one entry per input, each position appears in
      exactly one of them, both keep input order, and the final store is the
      initial store followed by `created`. */
  lemma {:induction false} BulkAccounts(store: seq<Customer>, nextId: Id, inputs: seq<Option<CustomerInput>>,
                                       faults: map<nat, string>)
    ensures Accounted(store, nextId, inputs, |inputs|, Bulk(store, nextId, inputs, faults))
    decreases |inputs|
  {
    if inputs != [] {
      var n := |inputs| - 1;
      var pre := inputs[..n];
      BulkAccounts(store, nextId, pre, faults);
      var st := Bulk(store, nextId, pre, faults);
      assert Accounted(store, nextId, inputs, n, st) by {
        assert forall k :: 0 <= k < n ==> pre[k] == inputs[k];
      }
      StepAccounted(store, nextId, inputs, n, st, CheckBulkItem(st.store, inputs[n]), FaultAt(faults, n));
    }
  }

  /** `r` continues `p`: each list of `p` is a prefix of the one in `r`, and
      the positions `r` created beyond `p` are at or after `m`. */
  predicate Continues(p: BulkState, r: BulkState, m: nat)
  {
    && p.created <= r.created && p.createdAt <= r.createdAt && p.errors <= r.errors
    && (forall i :: |p.createdAt| <= i < |r.createdAt| ==> r.createdAt[i] >= m)
  }

  lemma ContinuesStep(p: BulkState, q: BulkState, m: nat, n: nat, c: Option<CustomerInput>,
                      check: Outcome, fault: Option<string>)
    requires check.Pass? ==> c.Some?
    requires Continues(p, q, m) && m <= n
    ensures Continues(p, Step(q, n, c, check, fault), m)
  {
    var r := Step(q, n, c, check, fault);
    StepExtends(q, n, c, check, fault);
    forall i | |p.createdAt| <= i < |r.createdAt| ensures r.createdAt[i] >= m {
      if i < |q.createdAt| {
        assert r.createdAt[i] == q.createdAt[i];
      }
    }
  }

  lemma {:induction false} BulkContinues(store: seq<Customer>, nextId: Id, inputs: seq<Option<CustomerInput>>,
                                        faults: map<nat, string>, m: nat, k: nat)
    requires m <= k <= |inputs|
    ensures Continues(Bulk(store, nextId, inputs[..m], faults), Bulk(store, nextId, inputs[..k], faults), m)
    decreases k
  {
    if m < k {
      BulkContinues(store, nextId, inputs, faults, m, k - 1);
      BulkUnfold(store, nextId, inputs, faults, k - 1);
      var q := Bulk(store, nextId, inputs[..k - 1], faults);
      ContinuesStep(Bulk(store, nextId, inputs[..m], faults), q,
                    m, k - 1, inputs[k - 1], CheckBulkItem(q.store, inputs[k - 1]), FaultAt(faults, k - 1));
    }
  }

  /** Running the first `m` items and then the rest gives the same result as
      running all of them: the lists after `m` items are prefixes of the final
      ones, and everything created later comes from a position at or after `m`. */
  lemma BulkPrefix(store: seq<Customer>, nextId: Id, inputs: seq<Option<CustomerInput>>,
                   faults: map<nat, string>, m: nat)
    requires m <= |inputs|
    ensures Continues(Bulk(store, nextId, inputs[..m], faults), Bulk(store, nextId, inputs, faults), m)
  {
    BulkContinues(store, nextId, inputs, faults, m, |inputs|);
    assert inputs[..|inputs|] == inputs;
  }

  /** The state after item `j` is one step past the state before it. */
  lemma BulkUnfold(store: seq<Customer>, nextId: Id, inputs: seq<Option<CustomerInput>>,
                   faults: map<nat, string>, j: nat)
    requires j < |inputs|
    ensures var prev := Bulk(store, nextId, inputs[..j], faults);
            Bulk(store, nextId, inputs[..j + 1], faults)
            == Step(prev, j, inputs[j], CheckBulkItem(prev.store, inputs[j]), FaultAt(faults, j))
  {
    assert inputs[..j + 1][..j] == inputs[..j];
  }

  /** An item whose checks fail, against the store as the batch has left it,
      is reported under its own position with its own email and message. */
  lemma {:induction false} FailedItemReported(store: seq<Customer>, nextId: Id,
                                             inputs: seq<Option<CustomerInput>>,
                                             faults: map<nat, string>, j: nat, e: Error)
    requires j < |inputs|
    requires CheckBulkItem(Bulk(store, nextId, inputs[..j], faults).store, inputs[j]) == Fail(e)
    ensures BulkError(j, EmailOf(inputs[j]), Message(e)) in Bulk(store, nextId, inputs, faults).errors
  {
    var p := Bulk(store, nextId, inputs[..j], faults);
    BulkUnfold(store, nextId, inputs, faults, j);
    var q := Bulk(store, nextId, inputs[..j + 1], faults);
    assert q.errors == p.errors + [BulkError(j, EmailOf(inputs[j]), Message(e))];
    BulkPrefix(store, nextId, inputs, faults, j + 1);
    assert q.errors[|p.errors|] in Bulk(store, nextId, inputs, faults).errors;
  }

  /** An item committed before position `j` is in the store that item `j` is
      checked against, with its email stripped. */
  lemma {:induction false} CommittedVisible(store: seq<Customer>, nextId: Id, inputs: seq<Option<CustomerInput>>,
                                           faults: map<nat, string>, i: nat, j: nat)
    requires i < j <= |inputs|
    requires i in Bulk(store, nextId, inputs, faults).createdAt
    ensures inputs[i].Some?
    ensures exists k :: 0 <= k < |Bulk(store, nextId, inputs[..j], faults).store| &&
                        Bulk(store, nextId, inputs[..j], faults).store[k].email == Strip(inputs[i].value.email)
  {
    var r := Bulk(store, nextId, inputs, faults);
    var pre := inputs[..j];
    var p := Bulk(store, nextId, pre, faults);
    BulkPrefix(store, nextId, inputs, faults, j);
    BulkAccounts(store, nextId, pre, faults);
    var pos :| 0 <= pos < |r.createdAt| && r.createdAt[pos] == i;
    assert pos < |p.createdAt|;
    assert p.createdAt[pos] == i && pre[i] == inputs[i];
    assert BuiltFrom(p.created[pos], inputs[i]);
    assert p.created[pos].email == Strip(inputs[i].value.email);
    assert p.store[|store| + pos] == p.created[pos];
  }

  /** A complete item whose email some stored customer already has, ignoring
      case, is rejected as a duplicate. */
  lemma TakenEmailRejected(cs: seq<Customer>, c: CustomerInput, k: nat)
    requires k < |cs| && c.name != "" && c.email != ""
    requires EqualIgnoringCase(cs[k].email, c.email)
    ensures CheckBulkItem(cs, Some(c)) == Fail(DuplicateEmail)
  {
    assert EmailTaken(cs, c.email);
  }

  /** A later item whose email equals, ignoring case, the stripped email of an
      item committed earlier in the same batch fails with "Email already
      exists.": committed items are visible to the checks that follow. */
  lemma BatchDuplicateRejected(store: seq<Customer>, nextId: Id, inputs: seq<Option<CustomerInput>>,
                               faults: map<nat, string>, i: nat, j: nat)
    requires i < j < |inputs|
    requires i in Bulk(store, nextId, inputs, faults).createdAt
    requires inputs[i].Some? && inputs[j].Some?
    requires inputs[j].value.name != "" && inputs[j].value.email != ""
    requires EqualIgnoringCase(Strip(inputs[i].value.email), inputs[j].value.email)
    ensures BulkError(j, Some(inputs[j].value.email), EmailExistsMsg) in Bulk(store, nextId, inputs, faults).errors
  {
    CommittedDuplicateFails(store, nextId, inputs, faults, i, j);
    FailedItemReported(store, nextId, inputs, faults, j, DuplicateEmail);
    assert EmailOf(inputs[j]) == Some(inputs[j].value.email);
  }

  /** The check of item `j` fails as a duplicate when an earlier committed
      item has its email ignoring case. */
  lemma CommittedDuplicateFails(store: seq<Customer>, nextId: Id, inputs: seq<Option<CustomerInput>>,
                                faults: map<nat, string>, i: nat, j: nat)
    requires i < j < |inputs|
    requires i in Bulk(store, nextId, inputs, faults).createdAt
    requires inputs[i].Some? && inputs[j].Some?
    requires inputs[j].value.name != "" && inputs[j].value.email != ""
    requires EqualIgnoringCase(Strip(inputs[i].value.email), inputs[j].value.email)
    ensures CheckBulkItem(Bulk(store, nextId, inputs[..j], faults).store, inputs[j]) == Fail(DuplicateEmail)
  {
    var p := Bulk(store, nextId, inputs[..j], faults);
    CommittedVisible(store, nextId, inputs, faults, i, j);
    var k :| 0 <= k < |p.store| && p.store[k].email == Strip(inputs[i].value.email);
    var c := inputs[j].value;
    TakenEmailRejected(p.store, c, k);
    assert inputs[j] == Some(c);
  }

  /** An item with an empty name or email fails with "Both name and email are
      required.". */
  lemma MissingFieldRejected(store: seq<Customer>, nextId: Id, inputs: seq<Option<CustomerInput>>,
                             faults: map<nat, string>, j: nat)
    requires j < |inputs| && inputs[j].Some?
    requires inputs[j].value.name == "" || inputs[j].value.email == ""
    ensures BulkError(j, Some(inputs[j].value.email), Message(MissingRequiredField))
              in Bulk(store, nextId, inputs, faults).errors
  {
    FailedItemReported(store, nextId, inputs, faults, j, MissingRequiredField);
  }

  /** A null item is reported, with no email, as the unexpected error that
      reading its name raises. */
  lemma NullItemReported(store: seq<Customer>, nextId: Id, inputs: seq<Option<CustomerInput>>,
                         faults: map<nat, string>, j: nat)
    requires j < |inputs| && inputs[j].None?
    ensures BulkError(j, None, Message(Unexpected(NoneHasNoName)))
              in Bulk(store, nextId, inputs, faults).errors
  {
    var e := Unexpected(NoneHasNoName);
    var p := Bulk(store, nextId, inputs[..j], faults);
    assert CheckBulkItem(p.store, inputs[j]) == Fail(e);
    FailedItemReported(store, nextId, inputs, faults, j, e);
    assert EmailOf(inputs[j]) == None;
  }

  /** A valid store stays valid through a whole batch. */
  lemma {:induction false} BulkKeepsValid(store: seq<Customer>, nextId: Id, inputs: seq<Option<CustomerInput>>,
                                         faults: map<nat, string>)
    requires CustomersValid(store, nextId)
    ensures var r := Bulk(store, nextId, inputs, faults);
            CustomersValid(r.store, r.nextId) && r.nextId >= nextId
    decreases |inputs|
  {
    if inputs != [] {
      var n := |inputs| - 1;
      BulkKeepsValid(store, nextId, inputs[..n], faults);
      var st := Bulk(store, nextId, inputs[..n], faults);
      var c := inputs[n];
      var check := CheckBulkItem(st.store, c);
      assert check.Pass? ==> c.Some? && ValidatePhone(c.value.phone) == Pass;
      StepKeepsValid(st, n, c, check, FaultAt(faults, n));
    }
  }

  /** One item keeps the store valid, given that a passing check means a
      well-formed phone. */
  lemma StepKeepsValid(st: BulkState, idx: nat, c: Option<CustomerInput>, check: Outcome, fault: Option<string>)
    requires CustomersValid(st.store, st.nextId)
    requires check.Pass? ==> c.Some? && ValidatePhone(c.value.phone) == Pass
    ensures var s := Step(st, idx, c, check, fault);
            CustomersValid(s.store, s.nextId) && s.nextId >= st.nextId
  {
    var s := Step(st, idx, c, check, fault);
    if check.Pass? && fault.None? {
      var v := c.value;
      var obj := NewCustomer(st.nextId, v.name, v.email, v.phone);
      assert s.store == st.store + [obj] && s.nextId == st.nextId + 1;
      AppendNewCustomer(st.store, st.nextId, v.name, v.email, v.phone);
    } else {
      assert s.store == st.store && s.nextId >= st.nextId;
    }
  }

  /** The partial-success batch: with an empty store, (A, a@x.com),
      (no name, b@x.com), (C, a@x.com). */
  const ExampleBatch: seq<Option<CustomerInput>> :=
    [Some(CustomerInput("A", "a@x.com", None)), Some(CustomerInput("", "b@x.com", None)),
     Some(CustomerInput("C", "a@x.com", None))]

  const ExampleA: Customer := Customer(1, "A", "a@x.com", "")

  lemma ExampleFirstItem()
    ensures Bulk([], 1, ExampleBatch[..1], map[]) == BulkState([ExampleA], 2, [ExampleA], [0], [])
  {
    assert ExampleBatch[..1][..0] == [];
    StripUnpadded("A");
    StripUnpadded("a@x.com");
    assert CheckBulkItem([], ExampleBatch[0]) == Pass;
  }

  lemma ExampleSecondItem()
    ensures Bulk([], 1, ExampleBatch[..2], map[])
            == BulkState([ExampleA], 2, [ExampleA], [0], [BulkError(1, Some("b@x.com"), "Both name and email are required.")])
  {
    ExampleFirstItem();
    BulkUnfold([], 1, ExampleBatch, map[], 1);
  }

  lemma ExampleThirdItem()
    ensures Bulk([], 1, ExampleBatch, map[])
            == BulkState([ExampleA], 2, [ExampleA], [0],
                         [BulkError(1, Some("b@x.com"), "Both name and email are required."),
                          BulkError(2, Some("a@x.com"), "Email already exists.")])
  {
    ExampleSecondItem();
    var prev := Bulk([], 1, ExampleBatch[..2], map[]);
    ExampleDuplicateChecked();
    assert CheckBulkItem(prev.store, ExampleBatch[2]) == Fail(DuplicateEmail);
    BulkUnfold([], 1, ExampleBatch, map[], 2);
    assert Bulk([], 1, ExampleBatch[..3], map[]) == Step(prev, 2, ExampleBatch[2], Fail(DuplicateEmail), None);
    assert ExampleBatch[..3] == ExampleBatch;
  }

  lemma ExampleDuplicateChecked()
    ensures CheckBulkItem([ExampleA], ExampleBatch[2]) == Fail(DuplicateEmail)
  {
    var c := ExampleBatch[2].value;
    assert EqualIgnoringCase([ExampleA][0].email, c.email);
    assert EmailTaken([ExampleA], c.email);
  }

  /** In the partial-success batch only A is created; item 1 is reported as
      missing a field and item 2, whose email A already took, as a duplicate. */
  lemma PartialSuccessExample()
    ensures var r := Bulk([], 1, ExampleBatch, map[]);
            && r.created == [Customer(1, "A", "a@x.com", "")]
            && r.errors == [BulkError(1, Some("b@x.com"), "Both name and email are required."),
                            BulkError(2, Some("a@x.com"), "Email already exists.")]
            && r.store == r.created
  {
    ExampleThirdItem();
  }
}
