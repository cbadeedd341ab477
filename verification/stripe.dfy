/**
 * The Stripe payment gateway of the store plugin
 * (plugins/fearlesscommerce/gateways/StripeGateway.php and the shared
 * parts of BasePaymentGateway.php): validation of the stored keys, the
 * conversion between store amounts and Stripe's minor units, the parsing
 * of the `Stripe-Signature` header, webhook verification and the
 * enabled-guards in front of the HTTP calls.  The gateway's configuration
 * is the decoded JSON object, an array of string settings; the HMAC and the
 * HTTP requests are not computed here: the HMAC is a parameter and an
 * operation that passes its guards returns the request it would send.
 */
module Stripe {
  import opened Php
  import opened PhpArray
  import opened PaymentGateway

  const SecretKey := "secret_key"
  const PublishableKey := "publishable_key"
  const WebhookSecret := "webhook_secret"

  /** `/^sk_(test_|live_)/`. */
  predicate SecretKeyFormat(s: string) {
    StartsWith(s, "sk_test_") || StartsWith(s, "sk_live_")
  }

  /** `/^pk_(test_|live_)/`. */
  predicate PublishableKeyFormat(s: string) {
    StartsWith(s, "pk_test_") || StartsWith(s, "pk_live_")
  }

  /** A configured key that fails its format check. */
  predicate Malformed(config: Arr<string>, key: string, format: string -> bool) {
    Configured(config, key) && !format(Get(config, key).value)
  }

  /** validateConfig's error list. */
  function ConfigErrors(config: Arr<string>): seq<ConfigError> {
    RequiredErrors(config, [SecretKey, PublishableKey]) +
      (if Malformed(config, SecretKey, SecretKeyFormat) then [BadSecretKey] else []) +
      (if Malformed(config, PublishableKey, PublishableKeyFormat) then [BadPublishableKey] else [])
  }

  method ValidateConfig(config: Arr<string>) returns (valid: bool, errors: seq<ConfigError>)
    ensures errors == ConfigErrors(config)
    ensures valid <==> errors == []
  {
    errors := ValidateRequiredFields(config, [SecretKey, PublishableKey]);
    if Configured(config, SecretKey) && !SecretKeyFormat(Get(config, SecretKey).value) {
      errors := errors + [BadSecretKey];
    }
    if Configured(config, PublishableKey) && !PublishableKeyFormat(Get(config, PublishableKey).value) {
      errors := errors + [BadPublishableKey];
    }
    valid := errors == [];
  }

  /**
   * Each key is reported at most once: as required when it is missing or
   * empty, as malformed when it is set without its prefix; the
   * configuration is valid exactly when both keys carry their prefixes.
   */
  lemma ConfigErrorsMeaning(config: Arr<string>)
    ensures Required(SecretKey) in ConfigErrors(config) <==> !Configured(config, SecretKey)
    ensures Required(PublishableKey) in ConfigErrors(config) <==> !Configured(config, PublishableKey)
    ensures BadSecretKey in ConfigErrors(config) <==>
      Configured(config, SecretKey) && !SecretKeyFormat(Get(config, SecretKey).value)
    ensures BadPublishableKey in ConfigErrors(config) <==>
      Configured(config, PublishableKey) && !PublishableKeyFormat(Get(config, PublishableKey).value)
    ensures forall e :: e in ConfigErrors(config) ==> e in {Required(SecretKey), Required(PublishableKey), BadSecretKey, BadPublishableKey}
    ensures ConfigErrors(config) == [] <==>
      (Configured(config, SecretKey) && SecretKeyFormat(Get(config, SecretKey).value) &&
       Configured(config, PublishableKey) && PublishableKeyFormat(Get(config, PublishableKey).value))
  {
    RequiredTwo(config, SecretKey, PublishableKey);
  }

  // ---------------------------------------------------------------------
  // Amounts
  // ---------------------------------------------------------------------

  /** The currencies Stripe counts in whole units. */
  const ZeroDecimalCurrencies: seq<string> :=
    ["BIF", "CLP", "DJF", "GNF", "JPY", "KMF", "KRW", "MGA", "PYG", "RWF", "UGX", "VND", "VUV", "XAF",
     "XOF", "XPF"]

  /** `in_array(strtoupper($currency), $zeroDecimalCurrencies)`. */
  predicate ZeroDecimal(currency: string) {
    Upper(currency) in ZeroDecimalCurrencies
  }

  lemma ZeroDecimalIgnoresCase(currency: string)
    ensures ZeroDecimal(Upper(currency)) == ZeroDecimal(currency)
  {
    UpperIdempotent(currency);
  }

  /** convertFromStripeAmount: Stripe's integer amount in the store's units. */
  function FromStripeAmount(amount: int, currency: string): real {
    if ZeroDecimal(currency) then amount as real else amount as real / 100.0
  }

  /** The conversion is the identity for a zero-decimal currency and divides by 100 for every other one. */
  lemma FromStripeAmountMeaning(amount: int, currency: string)
    ensures ZeroDecimal(currency) ==> FromStripeAmount(amount, currency) == amount as real
    ensures !ZeroDecimal(currency) ==> 100.0 * FromStripeAmount(amount, currency) == amount as real
    ensures FromStripeAmount(amount, Upper(currency)) == FromStripeAmount(amount, currency)
  {
    ZeroDecimalIgnoresCase(currency);
  }

  /** The currency is matched whatever its case: yen amounts are not divided. */
  lemma YenIsZeroDecimal(amount: int)
    ensures FromStripeAmount(amount, "jpy") == amount as real
    ensures FromStripeAmount(amount, "usd") == amount as real / 100.0
  {
    assert Upper("jpy") == "JPY";
    assert Upper("usd") == "USD";
  }

  /** convertToStripeAmount as written: every amount is multiplied by 100 (the rounding is not modelled). */
  function ToStripeAmountAsWritten(amount: real): real {
    amount * 100.0
  }

  /**
   * For a zero-decimal currency the as-written conversion charges a hundred
   * times the amount, and what comes back from Stripe reads as a hundred
   * times what the store asked for.
   */
  lemma AsWrittenInflatesZeroDecimal(n: int, currency: string)
    requires ZeroDecimal(currency) && n != 0
    ensures ToStripeAmountAsWritten(n as real) == (100 * n) as real
    ensures FromStripeAmount(100 * n, currency) != n as real
  {
  }

  /** The concrete case: ¥500 is sent as 50000 and read back as 50000.0. */
  lemma AsWrittenYen()
    ensures ToStripeAmountAsWritten(500.0) == 50000.0
    ensures FromStripeAmount(50000, "jpy") == 50000.0
  {
    YenIsZeroDecimal(50000);
  }

  /** The conversion into minor units that convertFromStripeAmount inverts: zero-decimal amounts are sent as they are. */
  function ToStripeAmount(amount: real, currency: string): real {
    if ZeroDecimal(currency) then amount else amount * 100.0
  }

  /** Reading an amount back from Stripe and sending it again gives Stripe's amount. */
  lemma StripeAmountRoundTrip(n: int, currency: string)
    ensures ToStripeAmount(FromStripeAmount(n, currency), currency) == n as real
  {
  }

  /** Sending a store amount and reading it back gives the store amount. */
  lemma StoreAmountRoundTrip(n: int, currency: string)
    requires !ZeroDecimal(currency) ==> n % 100 == 0
    ensures ToStripeAmount(n as real, currency) == (n as real) * (if ZeroDecimal(currency) then 1.0 else 100.0)
    ensures !ZeroDecimal(currency) ==> FromStripeAmount(n * 100, currency) == n as real
  {
  }

  /** For currencies with cents the corrected conversion is the one written. */
  lemma ToStripeAmountAgrees(amount: real, currency: string)
    requires !ZeroDecimal(currency)
    ensures ToStripeAmount(amount, currency) == ToStripeAmountAsWritten(amount)
  {
  }

  // ---------------------------------------------------------------------
  // Webhook signature
  // ---------------------------------------------------------------------

  /** `explode('=', $element, 2)` when it yields two parts. */
  function SplitPair(element: string): (r: Option<(string, string)>)
    ensures r.None? <==> '=' !in element
  {
    match IndexOfChar(element, '=')
    case None => None
    case Some(i) => Some((element[..i], element[i + 1..]))
  }

  /** The two parts are the element split at its first '='. */
  lemma SplitPairMeaning(element: string)
    requires '=' in element
    ensures element == SplitPair(element).value.0 + "=" + SplitPair(element).value.1
    ensures '=' !in SplitPair(element).value.0
  {
    var i := IndexOfChar(element, '=').value;
    assert element == element[..i] + "=" + element[i + 1..];
  }

  /** Each element of the header split at its first '='; None for an element without one. */
  function Pairs(elements: seq<string>): (r: seq<Option<(string, string)>>)
    ensures |r| == |elements|
    ensures forall i :: 0 <= i < |elements| ==> r[i] == SplitPair(elements[i])
  {
    seq(|elements|, i requires 0 <= i < |elements| => SplitPair(elements[i]))
  }

  /** The pair at index i has key k. */
  predicate KeyAt(pairs: seq<Option<(string, string)>>, i: int, k: string)
    requires 0 <= i < |pairs|
  {
    pairs[i].Some? && pairs[i].value.0 == k
  }

  /** `$signatureData[$pair[0]] = $pair[1]` for each pair in turn. */
  function PutPairs(pairs: seq<Option<(string, string)>>): Arr<string>
    decreases |pairs|
  {
    if pairs == [] then []
    else
      var data := PutPairs(pairs[..|pairs| - 1]);
      match pairs[|pairs| - 1]
      case None => data
      case Some(pair) => Put(data, pair.0, pair.1)
  }

  /** `$signatureData` for a header. */
  function SignatureData(header: string): Arr<string> {
    PutPairs(Pairs(Explode(header, ',')))
  }

  lemma PutPairsSnoc(pairs: seq<Option<(string, string)>>, k: nat)
    requires k < |pairs|
    ensures PutPairs(pairs[..k + 1]) ==
      match pairs[k]
      case None => PutPairs(pairs[..k])
      case Some(pair) => Put(PutPairs(pairs[..k]), pair.0, pair.1)
  {
    assert pairs[..k + 1][..k] == pairs[..k];
  }

  /** The header split at ',' and folded into a map from key to value. */
  method ParseSignatureHeader(header: string) returns (data: Arr<string>)
    ensures data == SignatureData(header)
  {
    var elements := Explode(header, ',');
    ghost var pairs := Pairs(elements);
    data := [];
    var k := 0;
    while k < |elements|
      invariant 0 <= k <= |elements|
      invariant data == PutPairs(pairs[..k])
    {
      PutPairsSnoc(pairs, k);
      var pair := SplitPair(elements[k]);
      if pair.Some? {
        data := Put(data, pair.value.0, pair.value.1);
      }
      k := k + 1;
    }
    assert pairs[..k] == pairs;
  }

  /** The index of the last pair with key k, if any. */
  function LastKeyIndex(pairs: seq<Option<(string, string)>>, k: string): (r: Option<nat>)
    ensures r.Some? ==> r.value < |pairs| && KeyAt(pairs, r.value, k)
    decreases |pairs|
  {
    if pairs == [] then None
    else if KeyAt(pairs, |pairs| - 1, k) then Some(|pairs| - 1)
    else
      var r := LastKeyIndex(pairs[..|pairs| - 1], k);
      if r.Some? then
        assert pairs[..|pairs| - 1][r.value] == pairs[r.value];
        r
      else r
  }

  /** No pair has the key when there is no last one, and no pair after the last one has it. */
  lemma {:induction false} LastKeyIndexMeaning(pairs: seq<Option<(string, string)>>, k: string)
    ensures LastKeyIndex(pairs, k).None? ==> forall i :: 0 <= i < |pairs| ==> !KeyAt(pairs, i, k)
    ensures LastKeyIndex(pairs, k).Some? ==>
      forall j :: LastKeyIndex(pairs, k).value < j < |pairs| ==> !KeyAt(pairs, j, k)
    decreases |pairs|
  {
    if pairs != [] {
      var n := |pairs| - 1;
      var init := pairs[..n];
      if !KeyAt(pairs, n, k) {
        LastKeyIndexMeaning(init, k);
        forall j | 0 <= j < n ensures KeyAt(pairs, j, k) == KeyAt(init, j, k) {
          assert init[j] == pairs[j];
        }
      }
    }
  }

  /**
   * A key reads the value of the last pair with that key and is absent when
   * no pair has it: later pairs win and elements without '=' are ignored.
   */
  lemma {:induction false} PutPairsLookup(pairs: seq<Option<(string, string)>>, k: string)
    ensures Get(PutPairs(pairs), k) ==
      match LastKeyIndex(pairs, k)
      case None => None
      case Some(i) => Some(pairs[i].value.1)
    decreases |pairs|
  {
    if pairs != [] {
      var n := |pairs| - 1;
      var init := pairs[..n];
      PutPairsLast(pairs, k);
      if !KeyAt(pairs, n, k) {
        PutPairsLookup(init, k);
        var r := LastKeyIndex(init, k);
        if r.Some? {
          assert init[r.value] == pairs[r.value];
        }
      }
    }
  }

  /** The last pair decides its own key; every other key reads as before it. */
  lemma PutPairsLast(pairs: seq<Option<(string, string)>>, k: string)
    requires pairs != []
    ensures var n := |pairs| - 1;
      Get(PutPairs(pairs), k) == if KeyAt(pairs, n, k) then Some(pairs[n].value.1) else Get(PutPairs(pairs[..n]), k)
  {
  }

  /** verifyWebhookSignature's verdict; `hmac(payload, secret)` stands for `hash_hmac('sha256', …)`. */
  predicate Accepts(config: Arr<string>, payload: string, header: string, hmac: (string, string) -> string) {
    Configured(config, WebhookSecret) &&
    Get(SignatureData(header), "v1") == Some(hmac(payload, Get(config, WebhookSecret).value))
  }

  method VerifyWebhookSignature(config: Arr<string>, payload: string, header: string,
                                hmac: (string, string) -> string) returns (ok: bool)
    ensures ok == Accepts(config, payload, header, hmac)
  {
    var secret := Get(config, WebhookSecret);
    if !IsSet(secret) {
      return false;
    }
    var data := ParseSignatureHeader(header);
    var v1 := Get(data, "v1");
    if v1.None? {
      return false;
    }
    ok := v1.value == hmac(payload, secret.value);
  }

  /**
   * A signature is accepted exactly when the webhook secret is set and the
   * last `v1=` element of the header carries the HMAC of the payload.
   */
  lemma AcceptsMeaning(config: Arr<string>, payload: string, header: string, hmac: (string, string) -> string)
    ensures var pairs := Pairs(Explode(header, ','));
      Accepts(config, payload, header, hmac) <==>
        (Configured(config, WebhookSecret) && LastKeyIndex(pairs, "v1").Some? &&
         pairs[LastKeyIndex(pairs, "v1").value].value.1 == hmac(payload, Get(config, WebhookSecret).value))
  {
    PutPairsLookup(Pairs(Explode(header, ',')), "v1");
  }

  /** A header without any `v1=` element is rejected. */
  lemma NoV1Rejects(config: Arr<string>, payload: string, header: string, hmac: (string, string) -> string)
    requires forall e :: e in Explode(header, ',') ==> SplitPair(e).None? || SplitPair(e).value.0 != "v1"
    ensures !Accepts(config, payload, header, hmac)
  {
    var elements := Explode(header, ',');
    var pairs := Pairs(elements);
    forall i | 0 <= i < |pairs| ensures !KeyAt(pairs, i, "v1") {
      assert elements[i] in elements;
    }
    AbsentKey(pairs, "v1");
  }

  /** A key no pair carries is not in the folded array. */
  lemma AbsentKey(pairs: seq<Option<(string, string)>>, k: string)
    requires forall i :: 0 <= i < |pairs| ==> !KeyAt(pairs, i, k)
    ensures Get(PutPairs(pairs), k).None?
  {
    PutPairsLookup(pairs, k);
  }

  /** Without a webhook secret nothing is accepted. */
  lemma NoSecretRejects(config: Arr<string>, payload: string, header: string, hmac: (string, string) -> string)
    requires !Configured(config, WebhookSecret)
    ensures !Accepts(config, payload, header, hmac)
  {
  }

  // ---------------------------------------------------------------------
  // Payments
  // ---------------------------------------------------------------------

  /** The parts of a webhook event that verifyPayment reads; `kind` is `type`, None when unset or null. */
  datatype Intent = Intent(id: string, amount: int, currency: string)
  datatype WebhookEvent = WebhookEvent(kind: Option<string>, intent: Intent)

  datatype Verification =
    | Verified(transactionId: string, amount: real, status: string, currency: string)
    | Rejected(message: string)

  const SucceededEvent := "payment_intent.succeeded"

  /** verifyPayment: only a succeeded payment intent is a verified payment. */
  function VerifyPayment(event: WebhookEvent): (r: Verification)
    ensures r.Verified? <==> event.kind == Some(SucceededEvent)
    ensures r.Rejected? ==> r.message == "Invalid webhook data"
    ensures r.Verified? ==> r.transactionId == event.intent.id && r.status == "completed"
  {
    if event.kind == Some(SucceededEvent) then
      var intent := event.intent;
      Verified(intent.id, FromStripeAmount(intent.amount, intent.currency), "completed", Upper(intent.currency))
    else Rejected("Invalid webhook data")
  }

  /** The verified amount and currency convert back to the amount Stripe reported. */
  lemma VerifiedAmountRoundTrip(event: WebhookEvent)
    requires VerifyPayment(event).Verified?
    ensures ToStripeAmount(VerifyPayment(event).amount, VerifyPayment(event).currency) == event.intent.amount as real
  {
    ZeroDecimalIgnoresCase(event.intent.currency);
  }

  /** What an operation does once past its guards: the Stripe request it sends. */
  datatype Outcome =
    | Failed(message: string)
    | Charge(amount: real, currency: string)
    | RefundRequest(paymentIntent: string, refundAmount: Option<real>)
    | StatusRequest(transactionId: string)

  const NotEnabled := "Stripe gateway is not enabled"

  /** processPayment up to the request: the enabled guard, then the configuration check. */
  function ProcessPayment(g: GatewayState, amount: real, currency: Option<string>): (r: Outcome)
    ensures !g.enabled ==> r == Failed(NotEnabled)
    ensures g.enabled && ConfigErrors(g.config) != [] ==>
      r == Failed("Invalid configuration: " + Implode(Messages(ConfigErrors(g.config)), ", "))
    ensures r.Charge? <==> g.enabled && ConfigErrors(g.config) == []
    ensures r.Charge? ==> r.currency == Lower(if currency.Some? then currency.value else "usd")
    ensures r.Charge? ==> r.amount == 100.0 * amount
  {
    if !g.enabled then Failed(NotEnabled)
    else
      var errors := ConfigErrors(g.config);
      if errors != [] then Failed("Invalid configuration: " + Implode(Messages(errors), ", "))
      else
        var cur := if currency.Some? then currency.value else "usd";
        Charge(ToStripeAmountAsWritten(amount), Lower(cur))
  }

  /** The currency of a charge, 'usd' when none is given. */
  function ChargeCurrency(currency: Option<string>): string {
    if currency.Some? then currency.value else "usd"
  }

  /**
   * For a currency with cents the charged amount is a whole number of minor
   * units that verifyPayment reads back as the store amount.
   */
  lemma ChargeRoundTrip(g: GatewayState, n: int, currency: Option<string>)
    requires ProcessPayment(g, n as real, currency).Charge? && !ZeroDecimal(ChargeCurrency(currency))
    ensures var c := ProcessPayment(g, n as real, currency);
      c.amount == c.amount.Floor as real && FromStripeAmount(c.amount.Floor, c.currency) == n as real
  {
    var cur := ChargeCurrency(currency);
    var c := ProcessPayment(g, n as real, currency);
    assert c.currency == Lower(cur);
    LowerUpper(cur);
    assert ZeroDecimal(Lower(cur)) == ZeroDecimal(cur);
    assert c.amount == (n * 100) as real;
    assert c.amount.Floor == n * 100;
  }

  /**
   * For a zero-decimal currency the charge is a hundred times the store
   * amount, and verifyPayment reads it back as that hundredfold amount.
   */
  lemma ChargeInflatesZeroDecimal(g: GatewayState, n: int, currency: Option<string>)
    requires ProcessPayment(g, n as real, currency).Charge? && ZeroDecimal(ChargeCurrency(currency))
    ensures var c := ProcessPayment(g, n as real, currency);
      c.amount == (100 * n) as real && FromStripeAmount(100 * n, c.currency) == (100 * n) as real
  {
    var cur := ChargeCurrency(currency);
    LowerUpper(cur);
    assert ZeroDecimal(Lower(cur)) == ZeroDecimal(cur);
  }

  /**
   * The corrected processPayment: the same guards, with the charge converted
   * by ToStripeAmount, so that every whole store amount reads back as itself.
   */
  function ProcessPaymentCorrected(g: GatewayState, amount: real, currency: Option<string>): (r: Outcome)
    ensures r.Charge? <==> ProcessPayment(g, amount, currency).Charge?
    ensures !r.Charge? ==> r == ProcessPayment(g, amount, currency)
    ensures r.Charge? ==> r.currency == ProcessPayment(g, amount, currency).currency
  {
    match ProcessPayment(g, amount, currency)
    case Charge(_, cur) => Charge(ToStripeAmount(amount, ChargeCurrency(currency)), cur)
    case other => other
  }

  /** With the corrected conversion every charge of a whole amount reads back as the store amount. */
  lemma CorrectedChargeRoundTrip(g: GatewayState, n: int, currency: Option<string>)
    requires ProcessPaymentCorrected(g, n as real, currency).Charge?
    ensures var c := ProcessPaymentCorrected(g, n as real, currency);
      c.amount == c.amount.Floor as real && FromStripeAmount(c.amount.Floor, c.currency) == n as real
  {
    var cur := ChargeCurrency(currency);
    var c := ProcessPaymentCorrected(g, n as real, currency);
    assert c.currency == Lower(cur);
    LowerUpper(cur);
    assert ZeroDecimal(Lower(cur)) == ZeroDecimal(cur);
    var m := if ZeroDecimal(cur) then n else n * 100;
    assert c.amount == ToStripeAmount(n as real, cur) == m as real;
    assert c.amount.Floor == m;
  }

  /** refundPayment up to the request: only the enabled guard; the amount is converted as written, without a currency. */
  function RefundPayment(g: GatewayState, transactionId: string, amount: Option<real>): (r: Outcome)
    ensures !g.enabled <==> r == Failed(NotEnabled)
    ensures g.enabled ==> r.RefundRequest? && r.paymentIntent == transactionId && (r.refundAmount.Some? <==> amount.Some?)
  {
    if !g.enabled then Failed(NotEnabled)
    else RefundRequest(transactionId, if amount.Some? then Some(ToStripeAmountAsWritten(amount.value)) else None)
  }

  /** getPaymentStatus up to the request: only the enabled guard. */
  function GetPaymentStatus(g: GatewayState, transactionId: string): (r: Outcome)
    ensures !g.enabled <==> r == Failed(NotEnabled)
    ensures g.enabled ==> r == StatusRequest(transactionId)
  {
    if !g.enabled then Failed(NotEnabled) else StatusRequest(transactionId)
  }
}
