/**
 * The store plugin's order arithmetic (plugins/fearlesscommerce/fearlesscommerce.php):
 * which tax rates apply to an address and how much tax they add, the
 * total stored with a new order, and the parameters of the order-status
 * update.  The tax-rate rows are a parameter: the database returns the
 * enabled rates in priority order, and the SQL itself is not modelled.
 */
module Commerce {
  import opened Php

  /**
   * A postal address as decoded from JSON, for an address that is truthy
   * (a non-empty array); a missing key of it is `None`.  The address
   * argument as a whole is `Option<Address>`: `None` stands for every falsy
   * address, null and the empty array `[]` alike, since `if ($address)`
   * skips the location tests for both.
   */
  datatype Address = Address(country: Option<string>, state: Option<string>, city: Option<string>,
                             postalCode: Option<string>)

  // ---------------------------------------------------------------------
  // Tax
  // ---------------------------------------------------------------------

  /** One row of the tax-rate table; `kind` is the `type` column. */
  datatype TaxRate = TaxRate(id: int, name: string, rate: real, kind: string,
                             country: Option<string>, state: Option<string>, city: Option<string>,
                             postalCode: Option<string>)

  /** A location field of a rate restricts nothing when unset; otherwise it must match case-insensitively. */
  predicate MatchesLoosely(field: Option<string>, given: Option<string>) {
    !IsSet(field) || Upper(field.value) == Upper(OrEmpty(given))
  }

  /** The rate applies: every location field it sets matches; the postal code must match exactly. */
  predicate AppliesTo(r: TaxRate, a: Address) {
    MatchesLoosely(r.country, a.country) && MatchesLoosely(r.state, a.state) &&
    MatchesLoosely(r.city, a.city) &&
    (!IsSet(r.postalCode) || r.postalCode.value == OrEmpty(a.postalCode))
  }

  /**
   * Without an address (an admin calculation) every rate applies.  `None`
   * is any falsy address, so an empty decoded array is `None` here, not
   * `Some(Address(None, None, None, None))`.
   */
  predicate Applies(r: TaxRate, address: Option<Address>) {
    address.None? || AppliesTo(r, address.value)
  }

  /** The tax one rate adds: a fraction of the subtotal for 'percentage', otherwise a fixed amount. */
  function TaxAmount(subtotal: real, r: TaxRate): real {
    if IsPercentage(r) then subtotal * r.rate else r.rate
  }

  /** `type === 'percentage'`. */
  predicate IsPercentage(r: TaxRate) {
    r.kind == "percentage"
  }

  /** An entry of `applied_taxes`. */
  datatype AppliedTax = AppliedTax(rateId: int, name: string, rate: real, taxableAmount: real, amount: real)

  function Applied(subtotal: real, r: TaxRate): AppliedTax {
    AppliedTax(r.id, r.name, r.rate, subtotal, TaxAmount(subtotal, r))
  }

  /** The applied taxes in rate-list order. */
  function AppliedTaxes(rates: seq<TaxRate>, address: Option<Address>, subtotal: real): (r: seq<AppliedTax>)
    ensures |r| <= |rates|
    decreases |rates|
  {
    if rates == [] then []
    else
      var last := rates[|rates| - 1];
      AppliedTaxes(rates[..|rates| - 1], address, subtotal) +
        (if Applies(last, address) then [Applied(subtotal, last)] else [])
  }

  /** `total_tax`: the sum of the applied amounts. */
  function TotalOf(applied: seq<AppliedTax>): real
    decreases |applied|
  {
    if applied == [] then 0.0 else TotalOf(applied[..|applied| - 1]) + applied[|applied| - 1].amount
  }

  lemma TotalSnoc(ts: seq<AppliedTax>, t: AppliedTax)
    ensures TotalOf(ts + [t]) == TotalOf(ts) + t.amount
  {
    assert (ts + [t])[..|ts|] == ts;
  }

  datatype TaxResult = TaxResult(totalTax: real, applied: seq<AppliedTax>)

  /** fearlesscommerce_calculate_tax: one pass over the rates, accumulating the total and the entries. */
  method CalculateTax(rates: seq<TaxRate>, address: Option<Address>, subtotal: real) returns (result: TaxResult)
    ensures result.applied == AppliedTaxes(rates, address, subtotal)
    ensures result.totalTax == TotalOf(result.applied)
  {
    var totalTax := 0.0;
    var applied: seq<AppliedTax> := [];
    var k := 0;
    while k < |rates|
      invariant 0 <= k <= |rates|
      invariant applied == AppliedTaxes(rates[..k], address, subtotal)
      invariant totalTax == TotalOf(applied)
    {
      var rate := rates[k];
      AppliedTaxesSnoc(rates, k, address, subtotal);
      if Applies(rate, address) {
        var amount := TaxAmount(subtotal, rate);
        var entry := AppliedTax(rate.id, rate.name, rate.rate, subtotal, amount);
        assert entry == Applied(subtotal, rate);
        TotalSnoc(applied, entry);
        totalTax := totalTax + amount;
        applied := applied + [entry];
      }
      k := k + 1;
    }
    assert rates[..k] == rates;
    result := TaxResult(totalTax, applied);
  }

  lemma AppliedTaxesSnoc(rates: seq<TaxRate>, k: nat, address: Option<Address>, subtotal: real)
    requires k < |rates|
    ensures AppliedTaxes(rates[..k + 1], address, subtotal) ==
      AppliedTaxes(rates[..k], address, subtotal) + (if Applies(rates[k], address) then [Applied(subtotal, rates[k])] else [])
  {
    assert rates[..k + 1][..k] == rates[..k];
  }

  /** The entries are exactly the applying rates, each once, in the order of the rate list. */
  lemma {:induction false} AppliedConcat(a: seq<TaxRate>, b: seq<TaxRate>, address: Option<Address>, subtotal: real)
    ensures AppliedTaxes(a + b, address, subtotal) == AppliedTaxes(a, address, subtotal) + AppliedTaxes(b, address, subtotal)
    decreases |b|
  {
    if b != [] {
      var b' := b[..|b| - 1];
      assert (a + b)[..|a + b| - 1] == a + b';
      assert (a + b)[|a + b| - 1] == b[|b| - 1];
      AppliedConcat(a, b', address, subtotal);
      Assoc(AppliedTaxes(a, address, subtotal), AppliedTaxes(b', address, subtotal),
            if Applies(b[|b| - 1], address) then [Applied(subtotal, b[|b| - 1])] else []);
    } else {
      assert a + b == a;
    }
  }

  /** Every entry records the subtotal as its taxable amount and comes from a rate that applies. */
  lemma {:induction false} AppliedFromApplying(rates: seq<TaxRate>, address: Option<Address>, subtotal: real)
    ensures forall t :: t in AppliedTaxes(rates, address, subtotal) ==>
      t.taxableAmount == subtotal && exists r :: r in rates && Applies(r, address) && t == Applied(subtotal, r)
    decreases |rates|
  {
    if rates != [] {
      var init := rates[..|rates| - 1];
      AppliedFromApplying(init, address, subtotal);
      assert forall r :: r in init ==> r in rates;
    }
  }

  /** Without an address there is one entry per rate, in order. */
  lemma {:induction false} NoAddressAppliesAll(rates: seq<TaxRate>, subtotal: real)
    ensures |AppliedTaxes(rates, None, subtotal)| == |rates|
    ensures forall i :: 0 <= i < |rates| ==> AppliedTaxes(rates, None, subtotal)[i] == Applied(subtotal, rates[i])
    decreases |rates|
  {
    if rates != [] {
      NoAddressAppliesAll(rates[..|rates| - 1], subtotal);
    }
  }

  /** The sum of the `rate` column. */
  function RateSum(rates: seq<TaxRate>): real
    decreases |rates|
  {
    if rates == [] then 0.0 else RateSum(rates[..|rates| - 1]) + rates[|rates| - 1].rate
  }

  /** With fixed-amount rates only and no address, the tax is the sum of the rates, independent of the subtotal. */
  lemma {:induction false} FixedTotal(rates: seq<TaxRate>, subtotal: real)
    requires forall i :: 0 <= i < |rates| ==> !IsPercentage(rates[i])
    ensures TotalOf(AppliedTaxes(rates, None, subtotal)) == RateSum(rates)
    decreases |rates|
  {
    if rates != [] {
      var init := rates[..|rates| - 1];
      assert forall i :: 0 <= i < |init| ==> init[i] == rates[i];
      FixedTotal(init, subtotal);
      var entry := Applied(subtotal, rates[|rates| - 1]);
      TotalSnoc(AppliedTaxes(init, None, subtotal), entry);
    }
  }

  /** The address comparison ignores the case of country, state and city. */
  lemma CaseOfAddressIrrelevant(r: TaxRate, a: Address)
    ensures AppliesTo(r, a) == AppliesTo(r, a.(country := UpperOpt(a.country), state := UpperOpt(a.state),
                                                city := UpperOpt(a.city)))
  {
    UpperOptUpper(a.country);
    UpperOptUpper(a.state);
    UpperOptUpper(a.city);
  }

  function UpperOpt(o: Option<string>): (r: Option<string>)
    ensures o.None? <==> r.None?
  {
    if o.Some? then Some(Upper(o.value)) else None
  }

  lemma UpperOptUpper(o: Option<string>)
    ensures Upper(OrEmpty(UpperOpt(o))) == Upper(OrEmpty(o))
  {
    if o.Some? {
      UpperIdempotent(o.value);
    }
  }

  /** A rate with no location fields applies to every address. */
  lemma UnrestrictedRateApplies(r: TaxRate, address: Option<Address>)
    requires !IsSet(r.country) && !IsSet(r.state) && !IsSet(r.city) && !IsSet(r.postalCode)
    ensures Applies(r, address)
  {
  }

  // ---------------------------------------------------------------------
  // Orders
  // ---------------------------------------------------------------------

  /** The amounts of a new order row. */
  datatype OrderAmounts = OrderAmounts(subtotal: real, tax: real, shipping: real, total: real)

  /** fearlesscommerce_create_order: the stored total is subtotal + tax + shipping (tax and shipping default to 0). */
  function NewOrderAmounts(subtotal: real, tax: Option<real>, shipping: Option<real>): (r: OrderAmounts)
    ensures r.subtotal == subtotal
    ensures r.total == r.subtotal + r.tax + r.shipping
    ensures tax.None? ==> r.tax == 0.0
    ensures shipping.None? ==> r.shipping == 0.0
  {
    var t := if tax.Some? then tax.value else 0.0;
    var s := if shipping.Some? then shipping.value else 0.0;
    OrderAmounts(subtotal, t, s, subtotal + t + s)
  }

  /** The status update statement and its bound parameters. */
  datatype StatusUpdate = StatusUpdate(setsPaymentStatus: bool, params: seq<Scalar>)

  const PaymentStatusClause := ", payment_status = ?"

  /** The SQL text of the update. */
  function UpdateQuery(u: StatusUpdate): string {
    "UPDATE fearlesscommerce_orders SET status = ?" + (if u.setsPaymentStatus then PaymentStatusClause else "") +
      " WHERE id = ?"
  }

  /**
   * fearlesscommerce_update_order_status: the parameters are the status,
   * the payment status when it is truthy, then the order id, and the
   * payment-status clause is in the statement exactly when its parameter is.
   */
  function OrderStatusUpdate(orderId: Scalar, status: string, paymentStatus: Option<string>): (u: StatusUpdate)
    ensures u.setsPaymentStatus <==> IsSet(paymentStatus)
    ensures |u.params| == if u.setsPaymentStatus then 3 else 2
    ensures u.params[0] == Str(status) && u.params[|u.params| - 1] == orderId
    ensures u.setsPaymentStatus ==> u.params[1] == Str(paymentStatus.value)
  {
    var params := [Str(status)];
    var params := if IsSet(paymentStatus) then params + [Str(paymentStatus.value)] else params;
    StatusUpdate(IsSet(paymentStatus), params + [orderId])
  }
}
