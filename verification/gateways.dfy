/**
 * The payment-gateway registry of the store plugin
 * (plugins/fearlesscommerce/gateways/GatewayManager.php): the gateways are
 * filed under their names; every payment operation looks the gateway up
 * first and reports an unknown one, and processing and refunding also
 * refuse a disabled one, in both cases without calling the gateway.  The
 * calls the registry hands on are returned as a `Delegated` reply naming the
 * gateway; what the Stripe gateway then does is in the Stripe module.
 */
module Payments {
  import opened Php
  import opened PhpArray
  import opened PaymentGateway
  import Stripe

  datatype Kind = StripeGateway | PayPalGateway

  /** A registered gateway: which class it is and its loaded state. */
  datatype Gateway = Gateway(kind: Kind, state: GatewayState)

  /** getName. */
  function Name(k: Kind): string {
    match k
    case StripeGateway => "stripe"
    case PayPalGateway => "paypal"
  }

  /** getDisplayName. */
  function DisplayName(k: Kind): string {
    match k
    case StripeGateway => "Stripe"
    case PayPalGateway => "PayPal"
  }

  /** The two gateways are filed under different names. */
  lemma NamesDistinct(a: Kind, b: Kind)
    ensures Name(a) == Name(b) <==> a == b
  {
  }

  const PayPalModes := ["sandbox", "live"]

  /** PayPalGateway::validateConfig: the three settings are required and the mode must be sandbox or live. */
  function PayPalConfigErrors(config: Arr<string>): seq<ConfigError> {
    RequiredErrors(config, ["client_id", "client_secret", "mode"]) +
      (if Configured(config, "mode") && Get(config, "mode").value !in PayPalModes then [BadMode] else [])
  }

  lemma PayPalConfigErrorsMeaning(config: Arr<string>)
    ensures PayPalConfigErrors(config) == [] <==>
      (Configured(config, "client_id") && Configured(config, "client_secret") && Configured(config, "mode") &&
       Get(config, "mode").value in PayPalModes)
    ensures BadMode in PayPalConfigErrors(config) <==>
      Configured(config, "mode") && Get(config, "mode").value !in PayPalModes
  {
    RequiredErrorsEmpty(config, ["client_id", "client_secret", "mode"]);
    RequiredErrorsMembers(config, ["client_id", "client_secret", "mode"]);
  }

  /** The gateway's own validateConfig. */
  function GatewayConfigErrors(g: Gateway): seq<ConfigError> {
    match g.kind
    case StripeGateway => Stripe.ConfigErrors(g.state.config)
    case PayPalGateway => PayPalConfigErrors(g.state.config)
  }

  /** The reply of a registry operation: refused with a message, or handed to the gateway. */
  datatype Dispatch = Refused(message: string) | Delegated(gateway: Gateway)

  /**
   * The guard in front of a gateway call: an unknown name is refused, and so
   * is a disabled gateway when the operation checks enablement.
   */
  function DispatchTo(gateways: Arr<Gateway>, name: string, checksEnabled: bool): (d: Dispatch)
    ensures d.Delegated? <==> HasKey(gateways, name) && (checksEnabled ==> Get(gateways, name).value.state.enabled)
    ensures d.Delegated? ==> (name, d.gateway) in gateways
    ensures !HasKey(gateways, name) ==> d == Refused("Payment gateway not found: " + name)
    ensures HasKey(gateways, name) && d.Refused? ==> d == Refused("Payment gateway is not enabled: " + name)
  {
    match Get(gateways, name)
    case None => Refused("Payment gateway not found: " + name)
    case Some(g) =>
      if checksEnabled && !g.state.enabled then Refused("Payment gateway is not enabled: " + name)
      else Delegated(g)
  }

  /**
   * A Stripe gateway reached through an enablement-checking operation never
   * reports itself disabled: the registry's guard has already run.
   */
  lemma DelegatedStripeIsEnabled(gateways: Arr<Gateway>, name: string, amount: real, currency: Option<string>)
    requires DispatchTo(gateways, name, true).Delegated?
    ensures Stripe.ProcessPayment(DispatchTo(gateways, name, true).gateway.state, amount, currency) != Stripe.Failed(Stripe.NotEnabled)
  {
    var g := DispatchTo(gateways, name, true).gateway;
    assert g.state.enabled;
    EnabledStripeProcesses(g.state, amount, currency);
  }

  /** An enabled Stripe gateway either rejects its configuration or sends the charge. */
  lemma EnabledStripeProcesses(g: GatewayState, amount: real, currency: Option<string>)
    requires g.enabled
    ensures Stripe.ProcessPayment(g, amount, currency) != Stripe.Failed(Stripe.NotEnabled)
  {
    var errors := Stripe.ConfigErrors(g.config);
    if errors != [] {
      var msg := "Invalid configuration: " + Implode(Messages(errors), ", ");
      assert msg[0] == 'I';
      assert Stripe.NotEnabled[0] == 'S';
    }
  }

  /** Fields of getGatewayConfigFields, by the requested name (the form metadata is reduced to the keys). */
  function ConfigFieldNames(name: string): seq<string> {
    if name == "stripe" then ["publishable_key", "secret_key", "webhook_secret"]
    else if name == "paypal" then ["client_id", "client_secret", "mode"]
    else []
  }

  /** The fields offered as required on the form are the ones validateConfig requires. */
  lemma RequiredFieldsOnForm(k: Kind)
    ensures k == StripeGateway ==> forall f :: f in [Stripe.SecretKey, Stripe.PublishableKey] ==> f in ConfigFieldNames(Name(k))
    ensures k == PayPalGateway ==> forall f :: f in ["client_id", "client_secret", "mode"] ==> f in ConfigFieldNames(Name(k))
  {
  }

  /** The entries of enabled gateways. */
  function EnabledEntry(): ((string, Gateway)) -> bool {
    (e: (string, Gateway)) => e.1.state.enabled
  }

  class GatewayManager {
    var gateways: Arr<Gateway>

    /** Every gateway is filed under its own name, once. */
    predicate Valid()
      reads this
    {
      UniqueKeys(gateways) && forall i :: 0 <= i < |gateways| ==> gateways[i].0 == Name(gateways[i].1.kind)
    }

    /** The constructor registers the Stripe gateway and then the PayPal one, each loaded from its row. */
    constructor (stripeRow: Option<(bool, Option<Arr<string>>)>, payPalRow: Option<(bool, Option<Arr<string>>)>)
      ensures Valid()
      ensures gateways == [("stripe", Gateway(StripeGateway, Load(stripeRow))), ("paypal", Gateway(PayPalGateway, Load(payPalRow)))]
    {
      gateways := [];
      new;
      var stripe := Gateway(StripeGateway, Load(stripeRow));
      var payPal := Gateway(PayPalGateway, Load(payPalRow));
      Register(stripe);
      PutAppends([], "stripe", stripe);
      var first := gateways;
      assert first == [("stripe", stripe)];
      assert "stripe"[0] != "paypal"[0];
      Register(payPal);
      assert !HasKey(first, "paypal");
      PutAppends(first, "paypal", payPal);
    }

    /** registerGateway: file the gateway under its name, replacing one of the same name. */
    method Register(g: Gateway)
      requires Valid()
      modifies this
      ensures Valid()
      ensures gateways == Put(old(gateways), Name(g.kind), g)
    {
      PutUnique(gateways, Name(g.kind), g);
      var before := gateways;
      gateways := Put(gateways, Name(g.kind), g);
      forall i | 0 <= i < |gateways| ensures gateways[i].0 == Name(gateways[i].1.kind) {
        assert gateways[i] in gateways;
        if gateways[i] != (Name(g.kind), g) {
          var j :| 0 <= j < |before| && before[j] == gateways[i];
        }
      }
    }

    /**
     * getEnabledGateways: `$enabled[$name] = $gateway` for each enabled
     * gateway; as the names are unique, that is the enabled entries in
     * registry order.
     */
    method EnabledGateways() returns (enabled: Arr<Gateway>)
      requires Valid()
      ensures enabled == FilterSeq(gateways, EnabledEntry())
      ensures forall e :: e in enabled <==> e in gateways && e.1.state.enabled
    {
      enabled := [];
      var k := 0;
      while k < |gateways|
        invariant 0 <= k <= |gateways|
        invariant enabled == FilterSeq(gateways[..k], EnabledEntry())
      {
        FilterSeqSnoc(gateways, k, EnabledEntry());
        var g := gateways[k].1;
        if g.state.enabled {
          FilterSeqMembers(gateways[..k], EnabledEntry());
          forall i | 0 <= i < |enabled| ensures enabled[i].0 != Name(g.kind) {
            assert enabled[i] in gateways[..k];
          }
          PutAppends(enabled, Name(g.kind), g);
          enabled := Put(enabled, Name(g.kind), g);
        }
        k := k + 1;
      }
      assert gateways[..k] == gateways;
      FilterSeqMembers(gateways, EnabledEntry());
    }

    /** getGateway. */
    function Lookup(name: string): (r: Option<Gateway>)
      reads this
      ensures r.None? <==> !HasKey(gateways, name)
      ensures r.Some? ==> (name, r.value) in gateways
    {
      Get(gateways, name)
    }

    /** processPayment: unknown and disabled gateways are refused. */
    method ProcessPayment(name: string) returns (d: Dispatch)
      ensures d == DispatchTo(gateways, name, true)
    {
      var found := Lookup(name);
      if found.None? {
        return Refused("Payment gateway not found: " + name);
      }
      if !found.value.state.enabled {
        return Refused("Payment gateway is not enabled: " + name);
      }
      d := Delegated(found.value);
    }

    /** verifyPayment: only an unknown gateway is refused. */
    method VerifyPayment(name: string) returns (d: Dispatch)
      ensures d == DispatchTo(gateways, name, false)
    {
      var found := Lookup(name);
      if found.None? {
        return Refused("Payment gateway not found: " + name);
      }
      d := Delegated(found.value);
    }

    /** refundPayment: unknown and disabled gateways are refused. */
    method RefundPayment(name: string) returns (d: Dispatch)
      ensures d == DispatchTo(gateways, name, true)
    {
      var found := Lookup(name);
      if found.None? {
        return Refused("Payment gateway not found: " + name);
      }
      if !found.value.state.enabled {
        return Refused("Payment gateway is not enabled: " + name);
      }
      d := Delegated(found.value);
    }

    /** getPaymentStatus: only an unknown gateway is refused. */
    method GetPaymentStatus(name: string) returns (d: Dispatch)
      ensures d == DispatchTo(gateways, name, false)
    {
      var found := Lookup(name);
      if found.None? {
        return Refused("Payment gateway not found: " + name);
      }
      d := Delegated(found.value);
    }

    /** getGatewayConfigFields: no fields for an unknown gateway; otherwise the fields of the requested name. */
    method ConfigFields(name: string) returns (fields: seq<string>)
      ensures !HasKey(gateways, name) ==> fields == []
      ensures HasKey(gateways, name) ==> fields == ConfigFieldNames(name)
    {
      var found := Lookup(name);
      if found.None? {
        return [];
      }
      fields := ConfigFieldNames(name);
    }

    /** validateGatewayConfig: an unknown gateway is one error; otherwise the gateway's own check. */
    method ValidateGatewayConfig(name: string) returns (valid: bool, errors: seq<string>)
      ensures !HasKey(gateways, name) ==> !valid && errors == ["Gateway not found: " + name]
      ensures HasKey(gateways, name) ==>
        errors == Messages(GatewayConfigErrors(Get(gateways, name).value)) &&
        (valid <==> GatewayConfigErrors(Get(gateways, name).value) == [])
    {
      var found := Lookup(name);
      if found.None? {
        return false, ["Gateway not found: " + name];
      }
      var g := found.value;
      var codes: seq<ConfigError>;
      match g.kind {
        case StripeGateway =>
          valid, codes := Stripe.ValidateConfig(g.state.config);
        case PayPalGateway =>
          codes := PayPalConfigErrors(g.state.config);
          valid := codes == [];
      }
      errors := Messages(codes);
    }
  }
}
