/**
 * The store's two shipping methods (plugins/fearlesscommerce/shipping/):
 * the rules shared through BaseShippingMethod (required fields, order
 * weight and value, address and country checks), the flat-rate method
 * with its free-shipping threshold and the weight-based method with its
 * minimum and maximum cost.  A method's configuration is the JSON object
 * decoded from its database row; a numeric field that is missing or null
 * is `None`.  Validation errors are values of `ConfigError`, each with
 * the message the source reports.
 */
module Shipping {
  import opened Php
  import opened PhpArray
  import opened Commerce

  // ---------------------------------------------------------------------
  // Configuration
  // ---------------------------------------------------------------------

  /** PHP `empty()` on a numeric field: missing, null or zero. */
  predicate Blank(o: Option<real>) {
    o.None? || o.value == 0.0
  }

  predicate BlankDays(o: Option<int>) {
    o.None? || o.value == 0
  }

  /** `$config[...] ?? 0`. */
  function OrZero(o: Option<real>): (r: real)
    ensures o.None? ==> r == 0.0
    ensures o.Some? ==> r == o.value
  {
    if o.Some? then o.value else 0.0
  }

  datatype Config = Config(cost: Option<real>, freeShippingThreshold: Option<real>,
                           baseCost: Option<real>, costPerKg: Option<real>, maxWeight: Option<real>,
                           minCost: Option<real>, maxCost: Option<real>,
                           defaultDeliveryDays: Option<int>, allowedCountries: seq<string>)

  /** The configuration of a method without a stored row, or whose JSON does not decode. */
  const EmptyConfig := Config(None, None, None, None, None, None, None, None, [])

  /** `$this->config[$field]` for the money and weight fields. */
  function Field(c: Config, name: string): Option<real> {
    if name == "cost" then c.cost
    else if name == "free_shipping_threshold" then c.freeShippingThreshold
    else if name == "base_cost" then c.baseCost
    else if name == "cost_per_kg" then c.costPerKg
    else if name == "max_weight" then c.maxWeight
    else if name == "min_cost" then c.minCost
    else if name == "max_cost" then c.maxCost
    else None
  }

  datatype ConfigError =
    | Required(field: string)
    | NegativeCost | NegativeThreshold | DaysBelowOne
    | NegativeBaseCost | NegativeCostPerKg | NonPositiveMaxWeight | NegativeMinCost | NegativeMaxCost
    | MinAboveMax

  /** The text each error is reported with. */
  function Message(e: ConfigError): string {
    match e
    case Required(f) => "Field '" + f + "' is required"
    case NegativeCost => "Cost must be a positive number"
    case NegativeThreshold => "Free shipping threshold must be a positive number"
    case DaysBelowOne => "Default delivery days must be at least 1"
    case NegativeBaseCost => "Base cost must be a positive number"
    case NegativeCostPerKg => "Cost per kg must be a positive number"
    case NonPositiveMaxWeight => "Maximum weight must be a positive number"
    case NegativeMinCost => "Minimum cost must be a positive number"
    case NegativeMaxCost => "Maximum cost must be a positive number"
    case MinAboveMax => "Minimum cost cannot be greater than maximum cost"
  }

  function Messages(errors: seq<ConfigError>): (r: seq<string>)
    ensures |r| == |errors|
    ensures forall i :: 0 <= i < |errors| ==> r[i] == Message(errors[i])
  {
    seq(|errors|, i requires 0 <= i < |errors| => Message(errors[i]))
  }

  /** The message of a method whose configuration does not validate. */
  function InvalidMessage(errors: seq<ConfigError>): string {
    "Invalid configuration: " + Implode(Messages(errors), ", ")
  }

  // ---------------------------------------------------------------------
  // Required fields (BaseShippingMethod::validateRequiredFields)
  // ---------------------------------------------------------------------

  /** One `Required` error per blank field, in the order the fields are asked for. */
  function RequiredErrors(c: Config, fields: seq<string>): (r: seq<ConfigError>)
    decreases |fields|
  {
    if fields == [] then []
    else
      var f := fields[|fields| - 1];
      RequiredErrors(c, fields[..|fields| - 1]) + (if Blank(Field(c, f)) then [Required(f)] else [])
  }

  method RequiredFields(c: Config, fields: seq<string>) returns (errors: seq<ConfigError>)
    ensures errors == RequiredErrors(c, fields)
  {
    errors := [];
    var k := 0;
    while k < |fields|
      invariant 0 <= k <= |fields|
      invariant errors == RequiredErrors(c, fields[..k])
    {
      assert fields[..k + 1][..k] == fields[..k];
      if Blank(Field(c, fields[k])) {
        errors := errors + [Required(fields[k])];
      }
      k := k + 1;
    }
    assert fields[..k] == fields;
  }

  function BlankField(c: Config): string -> bool {
    f => Blank(Field(c, f))
  }

  function RequiredOf(blank: seq<string>): (r: seq<ConfigError>)
    ensures |r| == |blank|
  {
    seq(|blank|, i requires 0 <= i < |blank| => Required(blank[i]))
  }

  /** The errors are the blank fields, in input order, each wrapped as `Required`. */
  lemma {:induction false} RequiredErrorsAreBlankFields(c: Config, fields: seq<string>)
    ensures RequiredErrors(c, fields) == RequiredOf(FilterSeq(fields, BlankField(c)))
    decreases |fields|
  {
    if fields != [] {
      var j := |fields| - 1;
      RequiredErrorsAreBlankFields(c, fields[..j]);
      FilterSeqSnoc(fields, j, BlankField(c));
      assert fields[..j + 1] == fields;
    }
  }

  /** A field is reported exactly when it was asked for and is blank: zero counts as missing. */
  lemma RequiredErrorsMembers(c: Config, fields: seq<string>, f: string)
    ensures Required(f) in RequiredErrors(c, fields) <==> f in fields && Blank(Field(c, f))
    ensures RequiredErrors(c, fields) == [] <==> forall g :: g in fields ==> !Blank(Field(c, g))
  {
    RequiredErrorsAreBlankFields(c, fields);
    var blank := FilterSeq(fields, BlankField(c));
    FilterSeqMembers(fields, BlankField(c));
    if Required(f) in RequiredOf(blank) {
      var i :| 0 <= i < |blank| && RequiredOf(blank)[i] == Required(f);
      assert blank[i] == f;
    }
    if f in blank {
      var i :| 0 <= i < |blank| && blank[i] == f;
      assert RequiredOf(blank)[i] == Required(f);
    }
    if blank != [] {
      assert blank[0] in blank;
    }
  }

  // ---------------------------------------------------------------------
  // Order weight and value
  // ---------------------------------------------------------------------

  /** A cart line: the product's weight in kg (if known), the quantity and the price at purchase. */
  datatype Item = Item(weight: Option<real>, quantity: int, price: real)

  /** An item without a weight counts as 0.5 kg. */
  function UnitWeight(i: Item): real {
    if i.weight.Some? then i.weight.value else 0.5
  }

  function WeightOf(items: seq<Item>): real
    decreases |items|
  {
    if items == [] then 0.0
    else
      var i := items[|items| - 1];
      WeightOf(items[..|items| - 1]) + UnitWeight(i) * (i.quantity as real)
  }

  function ValueOf(items: seq<Item>): real
    decreases |items|
  {
    if items == [] then 0.0
    else
      var i := items[|items| - 1];
      ValueOf(items[..|items| - 1]) + i.price * (i.quantity as real)
  }

  /** calculateTotalWeight. */
  method TotalWeight(items: seq<Item>) returns (total: real)
    ensures total == WeightOf(items)
  {
    total := 0.0;
    var k := 0;
    while k < |items|
      invariant 0 <= k <= |items|
      invariant total == WeightOf(items[..k])
    {
      assert items[..k + 1][..k] == items[..k];
      var weight := if items[k].weight.Some? then items[k].weight.value else 0.5;
      total := total + weight * (items[k].quantity as real);
      k := k + 1;
    }
    assert items[..k] == items;
  }

  /** calculateTotalValue. */
  method TotalValue(items: seq<Item>) returns (total: real)
    ensures total == ValueOf(items)
  {
    total := 0.0;
    var k := 0;
    while k < |items|
      invariant 0 <= k <= |items|
      invariant total == ValueOf(items[..k])
    {
      assert items[..k + 1][..k] == items[..k];
      total := total + items[k].price * (items[k].quantity as real);
      k := k + 1;
    }
    assert items[..k] == items;
  }

  /** Weight and value add up over a split cart. */
  lemma {:induction false} TotalsConcat(a: seq<Item>, b: seq<Item>)
    ensures WeightOf(a + b) == WeightOf(a) + WeightOf(b)
    ensures ValueOf(a + b) == ValueOf(a) + ValueOf(b)
    decreases |b|
  {
    if b == [] {
      assert a + b == a;
    } else {
      var b' := b[..|b| - 1];
      assert (a + b)[..|a + b| - 1] == a + b';
      assert (a + b)[|a + b| - 1] == b[|b| - 1];
      TotalsConcat(a, b');
    }
  }

  function Quantities(items: seq<Item>): int
    decreases |items|
  {
    if items == [] then 0 else Quantities(items[..|items| - 1]) + items[|items| - 1].quantity
  }

  /** A cart without any known weights weighs half a kilogram per unit. */
  lemma {:induction false} DefaultWeight(items: seq<Item>)
    requires forall i :: 0 <= i < |items| ==> items[i].weight.None?
    ensures WeightOf(items) == 0.5 * (Quantities(items) as real)
    decreases |items|
  {
    if items != [] {
      var init := items[..|items| - 1];
      assert forall i :: 0 <= i < |init| ==> init[i] == items[i];
      DefaultWeight(init);
    }
  }

  predicate NonNegativeItems(items: seq<Item>) {
    forall i :: 0 <= i < |items| ==> items[i].quantity >= 0 && (items[i].weight.Some? ==> items[i].weight.value >= 0.0)
  }

  lemma MulNonNegative(x: real, y: real)
    requires x >= 0.0 && y >= 0.0
    ensures x * y >= 0.0
  {
  }

  lemma {:induction false} WeightNonNegative(items: seq<Item>)
    requires NonNegativeItems(items)
    ensures WeightOf(items) >= 0.0
    decreases |items|
  {
    if items != [] {
      var init := items[..|items| - 1];
      assert forall i :: 0 <= i < |init| ==> init[i] == items[i];
      WeightNonNegative(init);
      var last := items[|items| - 1];
      MulNonNegative(UnitWeight(last), last.quantity as real);
    }
  }

  // ---------------------------------------------------------------------
  // Addresses
  // ---------------------------------------------------------------------

  /** isValidAddress: all four fields are present and truthy. */
  predicate ValidAddress(a: Address) {
    IsSet(a.country) && IsSet(a.state) && IsSet(a.city) && IsSet(a.postalCode)
  }

  /** getCountryCode. */
  function CountryCode(a: Address): string {
    Upper(OrEmpty(a.country))
  }

  /** isCountryAllowed: no list allows everything; otherwise membership after upper-casing the list. */
  function CountryAllowed(code: string, allowed: seq<string>): bool {
    allowed == [] || code in seq(|allowed|, i requires 0 <= i < |allowed| => Upper(allowed[i]))
  }

  /** isAvailableForAddress, the same in both methods. */
  predicate AvailableFor(c: Config, a: Address) {
    ValidAddress(a) && (c.allowedCountries == [] || CountryAllowed(CountryCode(a), c.allowedCountries))
  }

  /** A method is available at a valid address exactly when its list is empty or names the country in any case. */
  lemma AvailableForMeaning(c: Config, a: Address)
    ensures AvailableFor(c, a) <==>
      (ValidAddress(a) &&
       (c.allowedCountries == [] ||
        exists i :: 0 <= i < |c.allowedCountries| && EqualsIgnoreCase(c.allowedCountries[i], OrEmpty(a.country))))
  {
    var allowed := c.allowedCountries;
    var ups := seq(|allowed|, i requires 0 <= i < |allowed| => Upper(allowed[i]));
    if CountryCode(a) in ups {
      var i :| 0 <= i < |ups| && ups[i] == CountryCode(a);
      assert EqualsIgnoreCase(allowed[i], OrEmpty(a.country));
    }
    if exists i :: 0 <= i < |allowed| && EqualsIgnoreCase(allowed[i], OrEmpty(a.country)) {
      var i :| 0 <= i < |allowed| && EqualsIgnoreCase(allowed[i], OrEmpty(a.country));
      assert ups[i] == CountryCode(a);
    }
  }

  /** The country check ignores the case of the address's country. */
  lemma AvailableIgnoresCase(c: Config, a: Address)
    ensures AvailableFor(c, a) == AvailableFor(c, a.(country := UpperOpt(a.country)))
  {
    UpperOptUpper(a.country);
    if a.country.Some? {
      UpperTruthy(a.country.value);
    }
  }

  /** Upper-casing keeps a string truthy or falsy. */
  lemma UpperTruthy(s: string)
    ensures Empty(Upper(s)) <==> Empty(s)
  {
    if |s| == 1 {
      assert Upper(s) == [UpperChar(s[0])];
      assert s == [s[0]];
    }
  }

  // ---------------------------------------------------------------------
  // Delivery days
  // ---------------------------------------------------------------------

  /** The per-country delivery times, the same table in both methods. */
  const DeliveryTimes: map<string, int> := map[
    "US" := 3, "CA" := 5, "GB" := 7, "AU" := 10,
    "DE" := 5, "FR" := 5, "IT" := 5, "ES" := 5, "NL" := 5, "BE" := 5, "AT" := 5, "CH" := 5,
    "SE" := 7, "NO" := 7, "DK" := 7, "FI" := 7]

  /** getEstimatedDeliveryDays: the table entry, else the configured default, else 7. */
  function DeliveryDays(c: Config, a: Address): int {
    var code := CountryCode(a);
    if code in DeliveryTimes then DeliveryTimes[code]
    else if c.defaultDeliveryDays.Some? then c.defaultDeliveryDays.value
    else 7
  }

  /** Every listed country takes between 3 and 10 days, whatever the configuration. */
  lemma ListedDeliveryDays(c: Config, a: Address)
    requires CountryCode(a) in DeliveryTimes
    ensures 3 <= DeliveryDays(c, a) <= 10
  {
  }

  /** With no usable default a delivery estimate is never below one day. */
  lemma DeliveryDaysPositive(c: Config, a: Address)
    requires c.defaultDeliveryDays.None? || c.defaultDeliveryDays.value >= 1
    ensures DeliveryDays(c, a) >= 1
  {
    if CountryCode(a) in DeliveryTimes {
      ListedDeliveryDays(c, a);
    }
  }

  /** The lookup ignores the case of the country. */
  lemma DeliveryDaysIgnoresCase(c: Config, a: Address)
    ensures DeliveryDays(c, a) == DeliveryDays(c, a.(country := UpperOpt(a.country)))
  {
    UpperOptUpper(a.country);
  }

  // ---------------------------------------------------------------------
  // Quotes
  // ---------------------------------------------------------------------

  /** The result array of calculateShipping. */
  datatype Quote = Unavailable(message: string) | Quoted(cost: real, days: int, message: string)

  // ----- flat rate -----

  /** FlatRateShipping::validateConfig, in the order the checks run. */
  function FlatConfigErrors(c: Config): seq<ConfigError> {
    RequiredErrors(c, ["cost"]) +
    (if !Blank(c.cost) && c.cost.value < 0.0 then [NegativeCost] else []) +
    (if !Blank(c.freeShippingThreshold) && c.freeShippingThreshold.value < 0.0 then [NegativeThreshold] else []) +
    (if !BlankDays(c.defaultDeliveryDays) && c.defaultDeliveryDays.value < 1 then [DaysBelowOne] else [])
  }

  method ValidateFlatConfig(c: Config) returns (errors: seq<ConfigError>)
    ensures errors == FlatConfigErrors(c)
  {
    errors := RequiredFields(c, ["cost"]);
    if !Blank(c.cost) && c.cost.value < 0.0 {
      errors := errors + [NegativeCost];
    }
    if !Blank(c.freeShippingThreshold) && c.freeShippingThreshold.value < 0.0 {
      errors := errors + [NegativeThreshold];
    }
    if !BlankDays(c.defaultDeliveryDays) && c.defaultDeliveryDays.value < 1 {
      errors := errors + [DaysBelowOne];
    }
  }

  /** What a valid flat-rate configuration is: a strictly positive cost, no negative threshold and no negative default days (zero counts as unset). */
  predicate FlatConfigValid(c: Config) {
    c.cost.Some? && c.cost.value > 0.0 &&
    (c.freeShippingThreshold.None? || c.freeShippingThreshold.value >= 0.0) &&
    (c.defaultDeliveryDays.None? || c.defaultDeliveryDays.value >= 0)
  }

  lemma RequiredOne(c: Config, f: string)
    ensures RequiredErrors(c, [f]) == if Blank(Field(c, f)) then [Required(f)] else []
  {
    assert [f][..0] == [];
  }

  /** Validation passes exactly for a valid configuration; a flat rate of 0 is rejected as missing. */
  lemma FlatConfigErrorsMeaning(c: Config)
    ensures FlatConfigErrors(c) == [] <==> FlatConfigValid(c)
    ensures Blank(c.cost) ==> Required("cost") in FlatConfigErrors(c)
  {
    RequiredOne(c, "cost");
  }

  /** The flat-rate quote. */
  function FlatRateQuote(enabled: bool, c: Config, items: seq<Item>, a: Address): Quote {
    if !enabled then Unavailable("Flat rate shipping is not enabled")
    else if !AvailableFor(c, a) then Unavailable("Flat rate shipping is not available for this address")
    else if FlatConfigErrors(c) != [] then Unavailable(InvalidMessage(FlatConfigErrors(c)))
    else
      var free := !Blank(c.freeShippingThreshold) && ValueOf(items) >= c.freeShippingThreshold.value;
      Quoted(if free then 0.0 else OrZero(c.cost), DeliveryDays(c, a), "Flat rate shipping calculated successfully")
  }

  /** FlatRateShipping::calculateShipping. */
  method CalculateFlatRate(enabled: bool, c: Config, items: seq<Item>, a: Address) returns (q: Quote)
    ensures q == FlatRateQuote(enabled, c, items, a)
  {
    if !enabled {
      return Unavailable("Flat rate shipping is not enabled");
    }
    if !AvailableFor(c, a) {
      return Unavailable("Flat rate shipping is not available for this address");
    }
    var errors := ValidateFlatConfig(c);
    if errors != [] {
      return Unavailable(InvalidMessage(errors));
    }
    var totalValue := TotalValue(items);
    var cost := OrZero(c.cost);
    if !Blank(c.freeShippingThreshold) && totalValue >= c.freeShippingThreshold.value {
      cost := 0.0;
    }
    q := Quoted(cost, DeliveryDays(c, a), "Flat rate shipping calculated successfully");
  }

  /**
   * A flat-rate quote exists exactly when the method is enabled, the
   * address is served and the configuration is valid; it is free exactly
   * when a threshold is set and reached, and otherwise the configured cost.
   */
  lemma FlatRateQuoteMeaning(enabled: bool, c: Config, items: seq<Item>, a: Address)
    ensures FlatRateQuote(enabled, c, items, a).Quoted? <==> enabled && AvailableFor(c, a) && FlatConfigValid(c)
    ensures FlatRateQuote(enabled, c, items, a).Quoted? ==>
      var q := FlatRateQuote(enabled, c, items, a);
      q.days == DeliveryDays(c, a) &&
      (q.cost == 0.0 <==> (c.freeShippingThreshold.Some? && c.freeShippingThreshold.value > 0.0 &&
                          ValueOf(items) >= c.freeShippingThreshold.value)) &&
      (q.cost == 0.0 || q.cost == c.cost.value)
  {
    FlatConfigErrorsMeaning(c);
  }

  // ----- weight based -----

  /** The first checks of WeightBasedShipping::validateConfig: required fields, base cost, cost per kg, weight limit. */
  function CostErrors(c: Config): seq<ConfigError> {
    RequiredErrors(c, ["base_cost", "cost_per_kg"]) +
    (if !Blank(c.baseCost) && c.baseCost.value < 0.0 then [NegativeBaseCost] else []) +
    (if !Blank(c.costPerKg) && c.costPerKg.value < 0.0 then [NegativeCostPerKg] else []) +
    (if !Blank(c.maxWeight) && c.maxWeight.value <= 0.0 then [NonPositiveMaxWeight] else [])
  }

  /** WeightBasedShipping::validateConfig, in the order the checks run. */
  function WeightConfigErrors(c: Config): seq<ConfigError> {
    CostErrors(c) +
    (if !Blank(c.minCost) && c.minCost.value < 0.0 then [NegativeMinCost] else []) +
    (if !Blank(c.maxCost) && c.maxCost.value < 0.0 then [NegativeMaxCost] else []) +
    (if !Blank(c.minCost) && !Blank(c.maxCost) && c.minCost.value > c.maxCost.value then [MinAboveMax] else [])
  }

  method ValidateWeightConfig(c: Config) returns (errors: seq<ConfigError>)
    ensures errors == WeightConfigErrors(c)
  {
    var required := RequiredFields(c, ["base_cost", "cost_per_kg"]);
    errors := required;
    if !Blank(c.baseCost) && c.baseCost.value < 0.0 {
      errors := errors + [NegativeBaseCost];
    }
    assert errors == required + (if !Blank(c.baseCost) && c.baseCost.value < 0.0 then [NegativeBaseCost] else []);
    if !Blank(c.costPerKg) && c.costPerKg.value < 0.0 {
      errors := errors + [NegativeCostPerKg];
    }
    if !Blank(c.maxWeight) && c.maxWeight.value <= 0.0 {
      errors := errors + [NonPositiveMaxWeight];
    }
    assert errors == CostErrors(c);
    if !Blank(c.minCost) && c.minCost.value < 0.0 {
      errors := errors + [NegativeMinCost];
    }
    assert errors == CostErrors(c) + (if !Blank(c.minCost) && c.minCost.value < 0.0 then [NegativeMinCost] else []);
    if !Blank(c.maxCost) && c.maxCost.value < 0.0 {
      errors := errors + [NegativeMaxCost];
    }
    if !Blank(c.minCost) && !Blank(c.maxCost) && c.minCost.value > c.maxCost.value {
      errors := errors + [MinAboveMax];
    }
  }

  /** What a valid weight-based configuration is. */
  predicate WeightConfigValid(c: Config) {
    c.baseCost.Some? && c.baseCost.value > 0.0 && c.costPerKg.Some? && c.costPerKg.value > 0.0 &&
    (c.maxWeight.None? || c.maxWeight.value >= 0.0) &&
    (c.minCost.None? || c.minCost.value >= 0.0) &&
    (c.maxCost.None? || c.maxCost.value >= 0.0) &&
    (Blank(c.minCost) || Blank(c.maxCost) || c.minCost.value <= c.maxCost.value)
  }

  lemma RequiredTwo(c: Config, f: string, g: string)
    ensures RequiredErrors(c, [f, g]) ==
      (if Blank(Field(c, f)) then [Required(f)] else []) + (if Blank(Field(c, g)) then [Required(g)] else [])
  {
    assert [f, g][..1] == [f];
    RequiredOne(c, f);
  }

  /** Validation passes exactly for a valid configuration; each required field is reported when blank. */
  lemma WeightConfigErrorsMeaning(c: Config)
    ensures WeightConfigErrors(c) == [] <==> WeightConfigValid(c)
    ensures Blank(c.baseCost) ==> Required("base_cost") in WeightConfigErrors(c)
    ensures Blank(c.costPerKg) ==> Required("cost_per_kg") in WeightConfigErrors(c)
  {
    RequiredTwo(c, "base_cost", "cost_per_kg");
  }

  /** The cost before clamping: base cost plus weight times the price per kilogram. */
  function RawCost(c: Config, weight: real): real {
    OrZero(c.baseCost) + weight * OrZero(c.costPerKg)
  }

  /** The cost after raising it to a set minimum and then lowering it to a set maximum. */
  function ClampedCost(c: Config, weight: real): real {
    var cost := RawCost(c, weight);
    var cost := if !Blank(c.minCost) && cost < c.minCost.value then c.minCost.value else cost;
    if !Blank(c.maxCost) && cost > c.maxCost.value then c.maxCost.value else cost
  }

  /** The clamp: never above a set maximum; never below a set minimum that does not exceed the maximum. */
  lemma ClampedCostBounds(c: Config, weight: real)
    ensures var cost := ClampedCost(c, weight);
      (Blank(c.minCost) && Blank(c.maxCost) ==> cost == RawCost(c, weight)) &&
      (!Blank(c.maxCost) ==> cost <= c.maxCost.value) &&
      (!Blank(c.minCost) && (Blank(c.maxCost) || c.minCost.value <= c.maxCost.value) ==> cost >= c.minCost.value) &&
      (cost == RawCost(c, weight) || cost == OrZero(c.minCost) || cost == OrZero(c.maxCost))
  {
  }

  /** Within the bounds the raw cost is charged unchanged. */
  lemma ClampedCostInside(c: Config, weight: real)
    requires Blank(c.minCost) || RawCost(c, weight) >= c.minCost.value
    requires Blank(c.maxCost) || RawCost(c, weight) <= c.maxCost.value
    ensures ClampedCost(c, weight) == RawCost(c, weight)
  {
  }

  /** The cost computation of calculateShipping: the cost is reassigned by the two clamps in turn. */
  method Clamp(c: Config, totalWeight: real) returns (cost: real)
    ensures cost == ClampedCost(c, totalWeight)
  {
    var baseCost := OrZero(c.baseCost);
    var costPerKg := OrZero(c.costPerKg);
    cost := baseCost + totalWeight * costPerKg;
    if !Blank(c.minCost) && cost < c.minCost.value {
      cost := c.minCost.value;
    }
    if !Blank(c.maxCost) && cost > c.maxCost.value {
      cost := c.maxCost.value;
    }
  }

  /** The weight-based quote. */
  function WeightQuote(enabled: bool, c: Config, items: seq<Item>, a: Address): Quote {
    if !enabled then Unavailable("Weight-based shipping is not enabled")
    else if !AvailableFor(c, a) then Unavailable("Weight-based shipping is not available for this address")
    else if WeightConfigErrors(c) != [] then Unavailable(InvalidMessage(WeightConfigErrors(c)))
    else if !Blank(c.maxWeight) && WeightOf(items) > c.maxWeight.value then
      Unavailable("Order weight exceeds maximum allowed weight")
    else Quoted(ClampedCost(c, WeightOf(items)), DeliveryDays(c, a), "Weight-based shipping calculated successfully")
  }

  /** WeightBasedShipping::calculateShipping. */
  method CalculateWeightBased(enabled: bool, c: Config, items: seq<Item>, a: Address) returns (q: Quote)
    ensures q == WeightQuote(enabled, c, items, a)
  {
    if !enabled {
      return Unavailable("Weight-based shipping is not enabled");
    }
    if !AvailableFor(c, a) {
      return Unavailable("Weight-based shipping is not available for this address");
    }
    var errors := ValidateWeightConfig(c);
    if errors != [] {
      return Unavailable(InvalidMessage(errors));
    }
    var totalWeight := TotalWeight(items);
    if !Blank(c.maxWeight) && totalWeight > c.maxWeight.value {
      return Unavailable("Order weight exceeds maximum allowed weight");
    }
    var cost := Clamp(c, totalWeight);
    q := Quoted(cost, DeliveryDays(c, a), "Weight-based shipping calculated successfully");
  }

  /**
   * A weight-based quote exists exactly when the method is enabled, the
   * address is served, the configuration is valid and the cart is within
   * a set weight limit; its cost lies within the configured bounds and is
   * never negative for a cart of non-negative weights.
   */
  lemma WeightQuoteMeaning(enabled: bool, c: Config, items: seq<Item>, a: Address)
    requires NonNegativeItems(items)
    ensures WeightQuote(enabled, c, items, a).Quoted? <==>
      enabled && AvailableFor(c, a) && WeightConfigValid(c) && (Blank(c.maxWeight) || WeightOf(items) <= c.maxWeight.value)
    ensures WeightQuote(enabled, c, items, a).Quoted? ==>
      var q := WeightQuote(enabled, c, items, a);
      q.cost >= 0.0 && q.days == DeliveryDays(c, a) &&
      (!Blank(c.minCost) ==> q.cost >= c.minCost.value) &&
      (!Blank(c.maxCost) ==> q.cost <= c.maxCost.value)
  {
    WeightConfigErrorsMeaning(c);
    if WeightQuote(enabled, c, items, a).Quoted? {
      var w := WeightOf(items);
      WeightNonNegative(items);
      MulNonNegative(w, OrZero(c.costPerKg));
      ClampedCostBounds(c, w);
    }
  }

  // ----- the two methods -----

  datatype Kind = FlatRate | WeightBased

  /** A shipping method as loaded from its row: whether it is enabled, and its decoded configuration. */
  datatype Method = Method(kind: Kind, enabled: bool, config: Config)

  /** getName. */
  function Name(k: Kind): string {
    match k
    case FlatRate => "flat_rate"
    case WeightBased => "weight_based"
  }

  /** getDisplayName. */
  function DisplayName(k: Kind): string {
    match k
    case FlatRate => "Flat Rate Shipping"
    case WeightBased => "Weight-Based Shipping"
  }

  /** loadConfig: a stored row sets the flag and the configuration; without one the method is disabled and empty. */
  function Load(k: Kind, stored: Option<(bool, Config)>): (m: Method)
    ensures m.kind == k
    ensures stored.None? ==> !m.enabled && m.config == EmptyConfig
    ensures stored.Some? ==> m.enabled == stored.value.0 && m.config == stored.value.1
  {
    if stored.Some? then Method(k, stored.value.0, stored.value.1) else Method(k, false, EmptyConfig)
  }

  function ConfigErrors(m: Method): seq<ConfigError> {
    match m.kind
    case FlatRate => FlatConfigErrors(m.config)
    case WeightBased => WeightConfigErrors(m.config)
  }

  function QuoteOf(m: Method, items: seq<Item>, a: Address): Quote {
    match m.kind
    case FlatRate => FlatRateQuote(m.enabled, m.config, items, a)
    case WeightBased => WeightQuote(m.enabled, m.config, items, a)
  }

  /** `$method->validateConfig()`. */
  method ValidateConfig(m: Method) returns (errors: seq<ConfigError>)
    ensures errors == ConfigErrors(m)
  {
    match m.kind
    case FlatRate => errors := ValidateFlatConfig(m.config);
    case WeightBased => errors := ValidateWeightConfig(m.config);
  }

  /** `$method->calculateShipping($items, $address)`. */
  method CalculateShipping(m: Method, items: seq<Item>, a: Address) returns (q: Quote)
    ensures q == QuoteOf(m, items, a)
  {
    match m.kind
    case FlatRate => q := CalculateFlatRate(m.enabled, m.config, items, a);
    case WeightBased => q := CalculateWeightBased(m.enabled, m.config, items, a);
  }

  /** A disabled method never quotes, whatever the cart and address. */
  lemma DisabledNeverQuotes(m: Method, items: seq<Item>, a: Address)
    requires !m.enabled
    ensures QuoteOf(m, items, a).Unavailable?
  {
  }

  /** The keys of each method's configuration form (getConfigFields). */
  function ConfigFieldNames(k: Kind): seq<string> {
    match k
    case FlatRate => ["cost", "free_shipping_threshold", "default_delivery_days", "allowed_countries"]
    case WeightBased => ["base_cost", "cost_per_kg", "max_weight", "min_cost", "max_cost", "default_delivery_days",
                         "weight_delivery_multiplier", "allowed_countries"]
  }

  /** Every field that validation can report as required is on the method's form. */
  lemma RequiredFieldsOnForm(m: Method, f: string)
    requires Required(f) in ConfigErrors(m)
    ensures f in ConfigFieldNames(m.kind)
  {
    match m.kind
    case FlatRate =>
      RequiredOne(m.config, "cost");
    case WeightBased =>
      RequiredTwo(m.config, "base_cost", "cost_per_kg");
  }
}
