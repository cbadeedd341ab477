/**
 * What every payment gateway of the store plugin shares
 * (plugins/fearlesscommerce/gateways/BasePaymentGateway.php): the stored
 * state loaded from the gateway's row, the check of required settings and
 * the configuration errors with their messages.
 */
module PaymentGateway {
  import opened Php
  import opened PhpArray

  /** The stored state of a gateway: `$enabled` and the decoded `$config`. */
  datatype GatewayState = GatewayState(enabled: bool, config: Arr<string>)

  /**
   * loadConfig: a gateway without a row stays disabled with an empty
   * configuration; a row sets the flag, and a configuration that does not
   * decode to an array (given as None) becomes [].
   */
  function Load(row: Option<(bool, Option<Arr<string>>)>): (g: GatewayState)
    ensures row.None? ==> g == GatewayState(false, [])
    ensures row.Some? ==> g.enabled == row.value.0
    ensures row.Some? && row.value.1.Some? ==> g.config == row.value.1.value
    ensures row.Some? && row.value.1.None? ==> g.config == []
  {
    if row.None? then GatewayState(false, [])
    else GatewayState(row.value.0, if row.value.1.Some? then row.value.1.value else [])
  }

  /** The configuration errors the gateways report. */
  datatype ConfigError = Required(field: string) | BadSecretKey | BadPublishableKey | BadMode

  function Message(e: ConfigError): string {
    match e
    case Required(f) => "Field '" + f + "' is required"
    case BadSecretKey => "Invalid Stripe secret key format"
    case BadPublishableKey => "Invalid Stripe publishable key format"
    case BadMode => "Mode must be either \"sandbox\" or \"live\""
  }

  function Messages(errors: seq<ConfigError>): (r: seq<string>)
    ensures |r| == |errors|
    ensures forall i :: 0 <= i < |errors| ==> r[i] == Message(errors[i])
  {
    seq(|errors|, i requires 0 <= i < |errors| => Message(errors[i]))
  }

  /** `!empty($this->config[$key])`. */
  predicate Configured(config: Arr<string>, key: string) {
    IsSet(Get(config, key))
  }

  /** validateRequiredFields: one error per listed field that is missing or empty, in list order. */
  function RequiredErrors(config: Arr<string>, fields: seq<string>): seq<ConfigError>
    decreases |fields|
  {
    if fields == [] then []
    else
      var f := fields[|fields| - 1];
      RequiredErrors(config, fields[..|fields| - 1]) + (if Configured(config, f) then [] else [Required(f)])
  }

  lemma {:induction false} RequiredErrorsMembers(config: Arr<string>, fields: seq<string>)
    ensures forall e :: e in RequiredErrors(config, fields) <==> e.Required? && e.field in fields && !Configured(config, e.field)
    decreases |fields|
  {
    if fields != [] {
      var init := fields[..|fields| - 1];
      RequiredErrorsMembers(config, init);
      assert fields == init + [fields[|fields| - 1]];
    }
  }

  /** No error exactly when every listed field is set. */
  lemma {:induction false} RequiredErrorsEmpty(config: Arr<string>, fields: seq<string>)
    ensures RequiredErrors(config, fields) == [] <==> forall f :: f in fields ==> Configured(config, f)
    decreases |fields|
  {
    if fields != [] {
      var init := fields[..|fields| - 1];
      RequiredErrorsEmpty(config, init);
      assert fields == init + [fields[|fields| - 1]];
    }
  }

  method ValidateRequiredFields(config: Arr<string>, fields: seq<string>) returns (errors: seq<ConfigError>)
    ensures errors == RequiredErrors(config, fields)
  {
    errors := [];
    var k := 0;
    while k < |fields|
      invariant 0 <= k <= |fields|
      invariant errors == RequiredErrors(config, fields[..k])
    {
      assert fields[..k + 1][..k] == fields[..k];
      if !Configured(config, fields[k]) {
        errors := errors + [Required(fields[k])];
      }
      k := k + 1;
    }
    assert fields[..k] == fields;
  }

  lemma RequiredTwo(config: Arr<string>, a: string, b: string)
    ensures RequiredErrors(config, [a, b]) ==
      (if Configured(config, a) then [] else [Required(a)]) + (if Configured(config, b) then [] else [Required(b)])
  {
    var xa := if Configured(config, a) then [] else [Required(a)];
    var xb := if Configured(config, b) then [] else [Required(b)];
    assert [a, b][..1] == [a];
    assert [a][..0] == [];
    assert RequiredErrors(config, [a]) == [] + xa == xa;
    assert RequiredErrors(config, [a, b]) == RequiredErrors(config, [a]) + xb;
  }
}
