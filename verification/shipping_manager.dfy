/**
 * The shipping-method registry (plugins/fearlesscommerce/shipping/ShippingManager.php):
 * methods keyed by name, the option list offered at checkout and the
 * per-method lookups.  The singleton instance is one `ShippingManager`
 * object; the stored rows of the two default methods are constructor
 * parameters.
 */
module ShippingManagement {
  import opened Php
  import opened PhpArray
  import opened Commerce
  import opened Shipping

  /** An entry of calculateShippingOptions' result. */
  datatype ShippingOption = ShippingOption(methodName: string, displayName: string, cost: real, days: int,
                                           message: string)

  function OptionFor(m: Method, q: Quote): ShippingOption
    requires q.Quoted?
  {
    ShippingOption(Name(m.kind), DisplayName(m.kind), q.cost, q.days, q.message)
  }

  /** The option a registered method contributes: its quote when it quotes, nothing otherwise. */
  function OptionsOf(items: seq<Item>, a: Address): ((string, Method)) -> seq<ShippingOption> {
    (e: (string, Method)) =>
      var q := QuoteOf(e.1, items, a);
      if q.Quoted? then [OptionFor(e.1, q)] else []
  }

  /** The options of the given methods in registry order: one per method that quotes. */
  function Candidates(ms: Arr<Method>, items: seq<Item>, a: Address): seq<ShippingOption> {
    Collect(ms, OptionsOf(items, a))
  }

  /** Quoting one more method appends its option, if it has one. */
  lemma CandidatesSnoc(ms: Arr<Method>, k: nat, items: seq<Item>, a: Address)
    requires k < |ms|
    ensures Candidates(ms[..k + 1], items, a) == Candidates(ms[..k], items, a) +
      (if QuoteOf(ms[k].1, items, a).Quoted? then [OptionFor(ms[k].1, QuoteOf(ms[k].1, items, a))] else [])
  {
    assert ms[..k + 1][..k] == ms[..k];
  }

  /** `o` is the option method `m` offers: it quotes, and `o` carries that quote. */
  predicate Offers(m: Method, items: seq<Item>, a: Address, o: ShippingOption) {
    QuoteOf(m, items, a).Quoted? && o == OptionFor(m, QuoteOf(m, items, a))
  }

  /** Every option is the quote of a registered method, and every registered method that quotes gives one. */
  lemma CandidatesMembers(ms: Arr<Method>, items: seq<Item>, a: Address, o: ShippingOption)
    ensures o in Candidates(ms, items, a) <==> exists i :: 0 <= i < |ms| && Offers(ms[i].1, items, a, o)
  {
    CollectMembers(ms, OptionsOf(items, a), o);
    forall i | 0 <= i < |ms| ensures o in OptionsOf(items, a)(ms[i]) <==> Offers(ms[i].1, items, a, o) {
    }
  }

  function EnabledEntry(): ((string, Method)) -> bool {
    (e: (string, Method)) => e.1.enabled
  }

  /** Filtering the enabled methods first changes nothing: a disabled method never quotes. */
  lemma {:induction false} CandidatesOfEnabled(ms: Arr<Method>, items: seq<Item>, a: Address)
    ensures Candidates(FilterSeq(ms, EnabledEntry()), items, a) == Candidates(ms, items, a)
    decreases |ms|
  {
    if ms != [] {
      var j := |ms| - 1;
      CandidatesOfEnabled(ms[..j], items, a);
      FilterSeqSnoc(ms, j, EnabledEntry());
      assert ms[..j + 1] == ms;
      CollectConcat(FilterSeq(ms[..j], EnabledEntry()), if ms[j].1.enabled then [ms[j]] else [], OptionsOf(items, a));
      if !ms[j].1.enabled {
        DisabledNeverQuotes(ms[j].1, items, a);
      } else {
        assert [ms[j]][..0] == [];
      }
    }
  }

  // ---------------------------------------------------------------------
  // Sorting by cost (the usort with <=>)
  // ---------------------------------------------------------------------

  predicate SortedByCost(s: seq<ShippingOption>) {
    forall i, j :: 0 <= i < j < |s| ==> s[i].cost <= s[j].cost
  }

  /** Insert after every option that does not cost more. */
  function InsertByCost(o: ShippingOption, s: seq<ShippingOption>): (r: seq<ShippingOption>)
    ensures multiset(r) == multiset(s) + multiset{o}
    decreases |s|
  {
    if s == [] then [o]
    else if o.cost < s[0].cost then [o] + s
    else
      assert s == [s[0]] + s[1..];
      [s[0]] + InsertByCost(o, s[1..])
  }

  function SortByCost(s: seq<ShippingOption>): (r: seq<ShippingOption>)
    ensures multiset(r) == multiset(s)
    decreases |s|
  {
    if s == [] then []
    else
      assert s == s[..|s| - 1] + [s[|s| - 1]];
      InsertByCost(s[|s| - 1], SortByCost(s[..|s| - 1]))
  }

  lemma {:induction false} InsertByCostSorted(o: ShippingOption, s: seq<ShippingOption>)
    requires SortedByCost(s)
    ensures SortedByCost(InsertByCost(o, s))
    decreases |s|
  {
    if s != [] && o.cost >= s[0].cost {
      var t := s[1..];
      InsertByCostSorted(o, t);
      var r := InsertByCost(o, t);
      forall x | x in r ensures s[0].cost <= x.cost {
        assert x in multiset(r);
        if x != o {
          assert x in multiset(t);
        }
      }
      assert InsertByCost(o, s) == [s[0]] + r;
    }
  }

  /** The options come out in ascending cost, a permutation of their input. */
  lemma {:induction false} SortByCostSorted(s: seq<ShippingOption>)
    ensures SortedByCost(SortByCost(s))
    ensures multiset(SortByCost(s)) == multiset(s)
    decreases |s|
  {
    if s != [] {
      SortByCostSorted(s[..|s| - 1]);
      InsertByCostSorted(s[|s| - 1], SortByCost(s[..|s| - 1]));
    }
  }

  // ---------------------------------------------------------------------
  // Status
  // ---------------------------------------------------------------------

  /** getShippingMethodStatus; `configErrors` is `None` where the source leaves the key out. */
  datatype MethodStatus = MethodStatus(known: bool, enabled: bool, validConfig: bool, configErrors: Option<seq<string>>)

  function StatusOf(found: Option<Method>): (s: MethodStatus)
    ensures found.None? ==> !s.known && !s.enabled && !s.validConfig && s.configErrors.None?
    ensures found.Some? ==>
      (s.known && s.enabled == found.value.enabled &&
       (s.validConfig <==> ConfigErrors(found.value) == []) &&
       s.configErrors == Some(Messages(ConfigErrors(found.value))))
  {
    if found.None? then MethodStatus(false, false, false, None)
    else
      var errors := ConfigErrors(found.value);
      MethodStatus(true, found.value.enabled, errors == [], Some(Messages(errors)))
  }

  class ShippingManager {
    var methods: Arr<Method>

    /** Every method is filed under its own name, once. */
    predicate Valid()
      reads this
    {
      UniqueKeys(methods) && forall i :: 0 <= i < |methods| ==> methods[i].0 == Name(methods[i].1.kind)
    }

    /** The constructor registers the flat-rate method and then the weight-based one, each loaded from its row. */
    constructor (flatRow: Option<(bool, Config)>, weightRow: Option<(bool, Config)>)
      ensures Valid()
      ensures methods == [("flat_rate", Load(FlatRate, flatRow)), ("weight_based", Load(WeightBased, weightRow))]
    {
      methods := [];
      new;
      Register(Load(FlatRate, flatRow));
      PutAppends([], "flat_rate", Load(FlatRate, flatRow));
      var first := methods;
      Register(Load(WeightBased, weightRow));
      assert !HasKey(first, "weight_based");
      PutAppends(first, "weight_based", Load(WeightBased, weightRow));
    }

    /** registerShippingMethod: file the method under its name, replacing one of the same name. */
    method Register(m: Method)
      requires Valid()
      modifies this
      ensures Valid()
      ensures methods == Put(old(methods), Name(m.kind), m)
    {
      PutUnique(methods, Name(m.kind), m);
      var before := methods;
      methods := Put(methods, Name(m.kind), m);
      forall i | 0 <= i < |methods| ensures methods[i].0 == Name(methods[i].1.kind) {
        assert methods[i] in methods;
        if methods[i] != (Name(m.kind), m) {
          var j :| 0 <= j < |before| && before[j] == methods[i];
        }
      }
    }

    /** getEnabledShippingMethods: the enabled methods, in registry order. */
    method EnabledMethods() returns (enabled: Arr<Method>)
      ensures enabled == FilterSeq(methods, EnabledEntry())
    {
      enabled := [];
      var k := 0;
      while k < |methods|
        invariant 0 <= k <= |methods|
        invariant enabled == FilterSeq(methods[..k], EnabledEntry())
      {
        FilterSeqSnoc(methods, k, EnabledEntry());
        if methods[k].1.enabled {
          enabled := enabled + [methods[k]];
        }
        k := k + 1;
      }
      assert methods[..k] == methods;
    }

    /**
     * calculateShippingOptions: quote every enabled method, keep the
     * available results, sort them by cost.  The result is sorted and holds
     * exactly the quotes of the registered methods.
     */
    method CalculateShippingOptions(items: seq<Item>, a: Address) returns (options: seq<ShippingOption>)
      ensures options == SortByCost(Candidates(methods, items, a))
      ensures SortedByCost(options)
      ensures multiset(options) == multiset(Candidates(methods, items, a))
    {
      var enabled := EnabledMethods();
      var found: seq<ShippingOption> := [];
      var k := 0;
      while k < |enabled|
        invariant 0 <= k <= |enabled|
        invariant found == Candidates(enabled[..k], items, a)
      {
        CandidatesSnoc(enabled, k, items, a);
        var m := enabled[k].1;
        var q := Shipping.CalculateShipping(m, items, a);
        if q.Quoted? {
          assert OptionFor(m, q) == ShippingOption(Name(m.kind), DisplayName(m.kind), q.cost, q.days, q.message);
          found := found + [ShippingOption(Name(m.kind), DisplayName(m.kind), q.cost, q.days, q.message)];
        }
        k := k + 1;
      }
      assert enabled[..k] == enabled;
      CandidatesOfEnabled(methods, items, a);
      options := SortByCost(found);
      SortByCostSorted(found);
    }

    /** calculateShipping: an unknown or disabled method is reported, not asked. */
    method CalculateShipping(name: string, items: seq<Item>, a: Address) returns (q: Quote)
      ensures Get(methods, name).None? ==> q == Unavailable("Shipping method not found: " + name)
      ensures Get(methods, name).Some? && !Get(methods, name).value.enabled ==>
        q == Unavailable("Shipping method is not enabled: " + name)
      ensures Get(methods, name).Some? && Get(methods, name).value.enabled ==>
        q == QuoteOf(Get(methods, name).value, items, a)
    {
      var found := Get(methods, name);
      if found.None? {
        return Unavailable("Shipping method not found: " + name);
      }
      if !found.value.enabled {
        return Unavailable("Shipping method is not enabled: " + name);
      }
      q := Shipping.CalculateShipping(found.value, items, a);
    }

    /** getShippingMethodConfigFields: no fields for an unknown method. */
    method ConfigFields(name: string) returns (fields: seq<string>)
      ensures Get(methods, name).None? ==> fields == []
      ensures Get(methods, name).Some? ==> fields == ConfigFieldNames(Get(methods, name).value.kind)
    {
      var found := Get(methods, name);
      if found.None? {
        return [];
      }
      fields := ConfigFieldNames(found.value.kind);
    }

    /** validateShippingMethodConfig. */
    method ValidateMethodConfig(name: string) returns (valid: bool, errors: seq<string>)
      ensures Get(methods, name).None? ==> !valid && errors == ["Shipping method not found: " + name]
      ensures Get(methods, name).Some? ==>
        errors == Messages(ConfigErrors(Get(methods, name).value)) && (valid <==> errors == [])
    {
      var found := Get(methods, name);
      if found.None? {
        return false, ["Shipping method not found: " + name];
      }
      var codes := ValidateConfig(found.value);
      errors := Messages(codes);
      valid := codes == [];
    }

    /** getShippingMethodStatus. */
    method Status(name: string) returns (s: MethodStatus)
      ensures s == StatusOf(Get(methods, name))
    {
      var found := Get(methods, name);
      if found.None? {
        return MethodStatus(false, false, false, None);
      }
      var codes := ValidateConfig(found.value);
      s := MethodStatus(true, found.value.enabled, codes == [], Some(Messages(codes)));
    }

    /** getAllShippingMethodStatuses: one status per registered method, under its name, in registry order. */
    method AllStatuses() returns (statuses: Arr<MethodStatus>)
      requires Valid()
      ensures Keys(statuses) == Keys(methods)
      ensures forall i :: 0 <= i < |methods| ==> statuses[i].1 == StatusOf(Some(methods[i].1))
    {
      statuses := [];
      var k := 0;
      while k < |methods|
        invariant 0 <= k <= |methods|
        invariant |statuses| == k
        invariant forall i :: 0 <= i < k ==> statuses[i] == (methods[i].0, StatusOf(Some(methods[i].1)))
      {
        var name := Name(methods[k].1.kind);
        var s := Status(name);
        assert Get(methods, name) == Some(methods[k].1);
        statuses := statuses + [(name, s)];
        k := k + 1;
      }
    }
  }
}
