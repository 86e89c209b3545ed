/** The x402 gateway: its configuration, the challenge it issues, and its decision on a request. */
module Gateway {
  import opened Results
  import opened Bytes
  import opened Text
  import opened Floats
  import opened Base64

  datatype PaymentProof = PaymentProof(txHash: string, from: string, amount: string, network: string, nonce: string)

  datatype PaymentRequirements = PaymentRequirements(
    scheme: string, amount: string, asset: string, network: string,
    payTo: string, productID: string, resource: string, nonce: string)

  datatype Config = Config(
    listenAddr: string, upstreamURL: string, price: string, priceValue: Float, currency: string, network: string,
    payTo: string, productID: string, resource: string, verifyURL: string, nonce: string, hmacSecret: string)

  datatype Refusal =
    | NotBase64
    | NotJson
    | FieldMissing(field: string)
    | NetworkInvalid
    | NonceMismatch
    | NetworkMismatch
    | AmountNotDecimal
    | AmountBelowPrice
    | Remote(reason: string)

  /** What the gateway is built on. JSON is a pair of functions; `verifyRemotely` answers as the
      configured verifier does, with a reason where it refuses. */
  datatype Platform = Platform(
    hmac: Hmac,
    parseFloat: string -> Option<Float>,
    toJson: PaymentProof -> seq<Byte>,
    fromJson: seq<Byte> -> Option<PaymentProof>,
    isURL: string -> bool,
    verifyRemotely: (PaymentProof, PaymentRequirements) -> Option<string>)

  const VALID_NETWORKS: set<string> := {"arc", "base", "ethereum"}

  // ---- configuration --------------------------------------------------------------------------------

  type Environment = map<string, string>

  datatype ConfigError =
    | Missing(names: seq<string>)
    | UnsupportedCurrency
    | InvalidNetwork
    | InvalidPrice
    | NegativePrice
    | InvalidUpstreamURL
    | InvalidVerifyURL
    | NoNonceSource

  function GetEnv(env: Environment, key: string, fallback: string): string {
    var v := TrimSpace(if key in env then env[key] else "");
    if v != "" then v else fallback
  }

  const REQUIRED: seq<string> := ["UPSTREAM_URL", "PRICE", "NETWORK", "PAY_TO", "PRODUCT_ID", "RESOURCE"]

  /** NaN is not negative: it compares with nothing. */
  ghost predicate NotNegative(x: Float) {
    match x
    case NaN => true
    case Infinite(negative) => !negative
    case Finite(value) => value >= 0.0
  }

  /** The environment gives every required variable, and every variable it gives is usable. */
  ghost predicate Configures(p: Platform, env: Environment) {
    && (forall name :: name in REQUIRED ==> GetEnv(env, name, "") != "")
    && GetEnv(env, "CURRENCY", "USDC") == "USDC"
    && GetEnv(env, "NETWORK", "") in VALID_NETWORKS
    && p.parseFloat(GetEnv(env, "PRICE", "")).Some?
    && NotNegative(p.parseFloat(GetEnv(env, "PRICE", "")).value)
    && p.isURL(GetEnv(env, "UPSTREAM_URL", ""))
    && (GetEnv(env, "VERIFY_URL", "") != "" ==> p.isURL(GetEnv(env, "VERIFY_URL", "")))
    && (GetEnv(env, "NONCE", "") != "" || GetEnv(env, "X402_HMAC_SECRET", "") != "")
  }

  ghost function Configured(p: Platform, env: Environment): Config
    requires p.parseFloat(GetEnv(env, "PRICE", "")).Some?
  {
    Config(
      GetEnv(env, "LISTEN_ADDR", ":8402"), GetEnv(env, "UPSTREAM_URL", ""),
      GetEnv(env, "PRICE", ""), p.parseFloat(GetEnv(env, "PRICE", "")).value,
      GetEnv(env, "CURRENCY", "USDC"), GetEnv(env, "NETWORK", ""), GetEnv(env, "PAY_TO", ""),
      GetEnv(env, "PRODUCT_ID", ""), GetEnv(env, "RESOURCE", ""), GetEnv(env, "VERIFY_URL", ""),
      GetEnv(env, "NONCE", ""), GetEnv(env, "X402_HMAC_SECRET", ""))
  }

  /** What each error says of the environment. */
  ghost predicate AtFault(p: Platform, env: Environment, error: ConfigError) {
    match error
    case Missing(names) => names != []
    case UnsupportedCurrency => GetEnv(env, "CURRENCY", "USDC") != "USDC"
    case InvalidNetwork => GetEnv(env, "NETWORK", "") !in {"arc", "base", "ethereum"}
    case InvalidPrice => p.parseFloat(GetEnv(env, "PRICE", "")).None?
    case NegativePrice =>
      p.parseFloat(GetEnv(env, "PRICE", "")).Some? && !NotNegative(p.parseFloat(GetEnv(env, "PRICE", "")).value)
    case InvalidUpstreamURL => !p.isURL(GetEnv(env, "UPSTREAM_URL", ""))
    case InvalidVerifyURL => GetEnv(env, "VERIFY_URL", "") != "" && !p.isURL(GetEnv(env, "VERIFY_URL", ""))
    case NoNonceSource => GetEnv(env, "NONCE", "") == "" && GetEnv(env, "X402_HMAC_SECRET", "") == ""
  }

  /** What every loaded configuration guarantees, whatever the environment was. */
  ghost predicate Loaded(p: Platform, cfg: Config) {
    && cfg.currency == "USDC" && cfg.network in VALID_NETWORKS
    && cfg.price != "" && Trimmed(cfg.price)
    && p.parseFloat(cfg.price) == Some(cfg.priceValue) && NotNegative(cfg.priceValue)
    && (cfg.nonce != "" || cfg.hmacSecret != "")
  }

  lemma ConfiguredIsLoaded(p: Platform, env: Environment)
    requires Configures(p, env)
    ensures Loaded(p, Configured(p, env))
  {
    assert "PRICE" in REQUIRED;
    assert GetEnv(env, "PRICE", "") != "";
    TrimSpaceTrims(if "PRICE" in env then env["PRICE"] else "");
  }

  /** A variable as the environment has it, without outer white space. */
  function Trimming(env: Environment, key: string): string {
    TrimSpace(if key in env then env[key] else "")
  }

  /** Each field is its own variable, trimmed; two have a default for a blank one. */
  lemma FieldsAreVariables(p: Platform, env: Environment)
    requires Configures(p, env)
    ensures var cfg := Configured(p, env);
      && cfg.upstreamURL == Trimming(env, "UPSTREAM_URL") != "" && cfg.price == Trimming(env, "PRICE") != ""
      && cfg.network == Trimming(env, "NETWORK") != "" && cfg.payTo == Trimming(env, "PAY_TO") != ""
      && cfg.productID == Trimming(env, "PRODUCT_ID") != "" && cfg.resource == Trimming(env, "RESOURCE") != ""
      && cfg.verifyURL == Trimming(env, "VERIFY_URL") && cfg.nonce == Trimming(env, "NONCE")
      && cfg.hmacSecret == Trimming(env, "X402_HMAC_SECRET")
      && cfg.currency == "USDC" && (Trimming(env, "CURRENCY") in {"", "USDC"})
      && cfg.listenAddr == if Trimming(env, "LISTEN_ADDR") == "" then ":8402" else Trimming(env, "LISTEN_ADDR")
  {
    assert "UPSTREAM_URL" in REQUIRED && "PRICE" in REQUIRED && "NETWORK" in REQUIRED;
    assert "PAY_TO" in REQUIRED && "PRODUCT_ID" in REQUIRED && "RESOURCE" in REQUIRED;
  }

  /** Configuration succeeds exactly on the environments that configure, and names exactly the
      required variables that are missing. */
  method LoadConfig(p: Platform, env: Environment) returns (result: Result<Config, ConfigError>)
    ensures result.Ok? <==> Configures(p, env)
    ensures result.Ok? ==> result.value == Configured(p, env) && Loaded(p, result.value)
    ensures result.Err? && result.error.Missing? <==> exists name :: name in REQUIRED && GetEnv(env, name, "") == ""
    ensures result.Err? ==> AtFault(p, env, result.error)
    ensures result.Err? && result.error.Missing? ==>
      forall name :: name in result.error.names <==> name in REQUIRED && GetEnv(env, name, "") == ""
  {
    var cfg := Config(
      GetEnv(env, "LISTEN_ADDR", ":8402"), GetEnv(env, "UPSTREAM_URL", ""), GetEnv(env, "PRICE", ""), Finite(0.0),
      GetEnv(env, "CURRENCY", "USDC"), GetEnv(env, "NETWORK", ""), GetEnv(env, "PAY_TO", ""),
      GetEnv(env, "PRODUCT_ID", ""), GetEnv(env, "RESOURCE", ""), GetEnv(env, "VERIFY_URL", ""),
      GetEnv(env, "NONCE", ""), GetEnv(env, "X402_HMAC_SECRET", ""));
    var missing: seq<string> := MissingNames(env);
    if missing != [] {
      assert missing[0] in missing;
      return Err(Missing(missing));
    }
    assert forall name :: name in REQUIRED ==> GetEnv(env, name, "") != "";
    if cfg.currency != "USDC" {
      return Err(UnsupportedCurrency);
    }
    if cfg.network !in VALID_NETWORKS {
      return Err(InvalidNetwork);
    }
    var price := p.parseFloat(cfg.price);
    if price.None? {
      return Err(InvalidPrice);
    }
    if Below(price.value, Finite(0.0)) {
      return Err(NegativePrice);
    }
    cfg := cfg.(priceValue := price.value);
    if !p.isURL(cfg.upstreamURL) {
      return Err(InvalidUpstreamURL);
    }
    if cfg.verifyURL != "" && !p.isURL(cfg.verifyURL) {
      return Err(InvalidVerifyURL);
    }
    if cfg.nonce == "" && cfg.hmacSecret == "" {
      return Err(NoNonceSource);
    }
    ConfiguredIsLoaded(p, env);
    return Ok(cfg);
  }

  method MissingNames(env: Environment) returns (missing: seq<string>)
    ensures forall name :: name in missing <==> name in REQUIRED && GetEnv(env, name, "") == ""
  {
    missing := [];
    for i := 0 to |REQUIRED|
      invariant forall name :: name in missing <==> name in REQUIRED[..i] && GetEnv(env, name, "") == ""
    {
      assert REQUIRED[..i + 1] == REQUIRED[..i] + [REQUIRED[i]];
      if GetEnv(env, REQUIRED[i], "") == "" {
        missing := missing + [REQUIRED[i]];
      }
    }
    assert REQUIRED[..|REQUIRED|] == REQUIRED;
  }

  // ---- challenge and proof ---------------------------------------------------------------------------

  function DeriveNonce(p: Platform, secret: string, resource: string): string {
    Encode(RAW_URL, p.hmac(secret, "x402-nonce:" + resource))
  }

  function ExpectedNonce(p: Platform, cfg: Config, resource: string): string {
    if cfg.nonce != "" then cfg.nonce else DeriveNonce(p, cfg.hmacSecret, resource)
  }

  function BuildRequirements(p: Platform, cfg: Config, resource: string): PaymentRequirements {
    PaymentRequirements("x402", cfg.price, cfg.currency, cfg.network, cfg.payTo, cfg.productID, resource,
                        ExpectedNonce(p, cfg, resource))
  }

  function EncodePaymentHeader(p: Platform, proof: PaymentProof): string {
    Encode(STD, p.toJson(proof))
  }

  function ValidateProof(proof: PaymentProof): Option<Refusal> {
    if proof.txHash == "" then Some(FieldMissing("txHash"))
    else if proof.from == "" then Some(FieldMissing("from"))
    else if proof.amount == "" then Some(FieldMissing("amount"))
    else if proof.network !in VALID_NETWORKS then Some(NetworkInvalid)
    else if proof.nonce == "" then Some(FieldMissing("nonce"))
    else None
  }

  datatype Parsed = NoPayment | Malformed(reason: Refusal) | Proof(proof: PaymentProof)

  function ParsePaymentHeader(p: Platform, raw: string): Parsed {
    var text := TrimSpace(raw);
    if text == "" then NoPayment
    else
      match DecodeFlexible(text)
      case None => Malformed(NotBase64)
      case Some(bytes) =>
        match p.fromJson(bytes)
        case None => Malformed(NotJson)
        case Some(proof) =>
          match ValidateProof(proof)
          case Some(reason) => Malformed(reason)
          case None => Proof(proof)
  }

  function AmountAtLeast(p: Platform, amount: string, price: Float): Option<bool> {
    var paid :- p.parseFloat(TrimSpace(amount));
    Some(AtLeast(paid, price))
  }

  function VerifyLocally(p: Platform, cfg: Config, proof: PaymentProof, req: PaymentRequirements): Option<Refusal> {
    if proof.nonce != ExpectedNonce(p, cfg, req.resource) then Some(NonceMismatch)
    else if proof.network != req.network then Some(NetworkMismatch)
    else
      match AmountAtLeast(p, proof.amount, cfg.priceValue)
      case None => Some(AmountNotDecimal)
      case Some(enough) => if enough then None else Some(AmountBelowPrice)
  }

  function Verify(p: Platform, cfg: Config, proof: PaymentProof, req: PaymentRequirements): Option<Refusal> {
    if cfg.verifyURL != "" then
      match p.verifyRemotely(proof, req)
      case None => None
      case Some(reason) => Some(Remote(reason))
    else VerifyLocally(p, cfg, proof, req)
  }

  /** A request is answered with a challenge that states the requirements, or sent upstream. */
  datatype Response =
    | Challenge(requirements: PaymentRequirements, reason: Option<Refusal>)
    | Forwarded(proof: PaymentProof)

  function Serve(p: Platform, cfg: Config, raw: string): Response {
    match ParsePaymentHeader(p, raw)
    case NoPayment => Challenge(BuildRequirements(p, cfg, cfg.resource), None)
    case Malformed(reason) => Challenge(BuildRequirements(p, cfg, cfg.resource), Some(reason))
    case Proof(proof) =>
      match Verify(p, cfg, proof, BuildRequirements(p, cfg, cfg.resource))
      case Some(reason) => Challenge(BuildRequirements(p, cfg, cfg.resource), Some(reason))
      case None => Forwarded(proof)
  }

  /** The handler, step by step. */
  class Handler {
    const p: Platform
    const cfg: Config

    constructor (p: Platform, cfg: Config)
      ensures this.p == p && this.cfg == cfg
    {
      this.p, this.cfg := p, cfg;
    }

    method ParseHeader(raw: string) returns (parsed: Parsed)
      ensures parsed == ParsePaymentHeader(p, raw)
    {
      var text := TrimSpace(raw);
      if text == "" {
        return NoPayment;
      }
      var decoded := DecodeBase64Flexible(text);
      if decoded.None? {
        return Malformed(NotBase64);
      }
      var proof := p.fromJson(decoded.value);
      if proof.None? {
        return Malformed(NotJson);
      }
      var invalid := ValidateProof(proof.value);
      if invalid.Some? {
        return Malformed(invalid.value);
      }
      return Proof(proof.value);
    }

    method ServeHTTP(raw: string) returns (response: Response)
      ensures response == Serve(p, cfg, raw)
    {
      var requirements := BuildRequirements(p, cfg, cfg.resource);
      var parsed := ParseHeader(raw);
      if parsed.NoPayment? {
        return Challenge(requirements, None);
      }
      if parsed.Malformed? {
        return Challenge(requirements, Some(parsed.reason));
      }
      var refused := Verify(p, cfg, parsed.proof, requirements);
      if refused.Some? {
        return Challenge(requirements, Some(refused.value));
      }
      return Forwarded(parsed.proof);
    }
  }

  // ---- what is forwarded -------------------------------------------------------------------------------

  /** The proof answers the challenge: it names the nonce and network that were asked for. */
  predicate Answers(proof: PaymentProof, req: PaymentRequirements) {
    proof.nonce == req.nonce && proof.network == req.network
  }

  ghost predicate PaysEnough(p: Platform, cfg: Config, proof: PaymentProof) {
    && p.parseFloat(TrimSpace(proof.amount)).Some?
    && AtLeast(p.parseFloat(TrimSpace(proof.amount)).value, cfg.priceValue)
  }

  /** Every field is given, and the network is one of the three. */
  ghost predicate Complete(proof: PaymentProof) {
    && proof.txHash != "" && proof.from != "" && proof.amount != "" && proof.nonce != ""
    && proof.network in {"arc", "base", "ethereum"}
  }

  /** The trimmed header decodes, in any of the four encodings, to the JSON of this proof. */
  ghost predicate Presents(p: Platform, raw: string, proof: PaymentProof) {
    && TrimSpace(raw) != ""
    && exists e: Encoding, bytes: seq<Byte> :: Decode(e, TrimSpace(raw)) == Some(bytes) && p.fromJson(bytes) == Some(proof)
  }

  lemma PresentsWhatDecodes(p: Platform, raw: string, proof: PaymentProof)
    ensures Presents(p, raw, proof) <==>
      && TrimSpace(raw) != "" && DecodeFlexible(TrimSpace(raw)).Some?
      && p.fromJson(DecodeFlexible(TrimSpace(raw)).value) == Some(proof)
  {
    var text := TrimSpace(raw);
    if e: Encoding, bytes: seq<Byte> :| Decode(e, text) == Some(bytes) && p.fromJson(bytes) == Some(proof) {
      FlexibleIsAnyDecoder(text, bytes);
    }
    if DecodeFlexible(text).Some? {
      var bytes := DecodeFlexible(text).value;
      FlexibleIsAnyDecoder(text, bytes);
      var e: Encoding :| Decode(e, text) == Some(bytes);
    }
  }

  lemma ParsedExactlyIfComplete(p: Platform, raw: string, proof: PaymentProof)
    ensures ParsePaymentHeader(p, raw) == Proof(proof) <==> Presents(p, raw, proof) && Complete(proof)
  {
    PresentsWhatDecodes(p, raw, proof);
  }

  /** A presented proof that is not complete is refused for the first field in the order of the
      header's fields that is missing or, for the network, unknown. */
  lemma RefusalNamesTheField(p: Platform, raw: string, proof: PaymentProof)
    requires Presents(p, raw, proof)
    ensures var parsed := ParsePaymentHeader(p, raw);
      && (parsed == Malformed(FieldMissing("txHash")) <==> proof.txHash == "")
      && (parsed == Malformed(FieldMissing("from")) <==> proof.txHash != "" && proof.from == "")
      && (parsed == Malformed(FieldMissing("amount")) <==> proof.txHash != "" && proof.from != "" && proof.amount == "")
      && (parsed == Malformed(NetworkInvalid) <==>
            && proof.txHash != "" && proof.from != "" && proof.amount != ""
            && proof.network !in {"arc", "base", "ethereum"})
      && (parsed == Malformed(FieldMissing("nonce")) <==>
            && proof.txHash != "" && proof.from != "" && proof.amount != ""
            && proof.network in {"arc", "base", "ethereum"} && proof.nonce == "")
      && (parsed == Proof(proof) <==> Complete(proof))
  {
    PresentsWhatDecodes(p, raw, proof);
  }

  /** A header presents nothing, is not base64 in any encoding, is not JSON of a proof, or presents
      one proof. */
  lemma HeaderKinds(p: Platform, raw: string)
    ensures ParsePaymentHeader(p, raw) == NoPayment <==> AllSpace(raw)
    ensures ParsePaymentHeader(p, raw) == Malformed(NotBase64) <==>
      !AllSpace(raw) && forall e: Encoding :: Decode(e, TrimSpace(raw)).None?
    ensures ParsePaymentHeader(p, raw) == Malformed(NotJson) <==>
      && !AllSpace(raw)
      && exists e: Encoding, bytes: seq<Byte> :: Decode(e, TrimSpace(raw)) == Some(bytes) && p.fromJson(bytes).None?
  {
    var text := TrimSpace(raw);
    TrimsToNothing(raw);
    forall e: Encoding | Decode(e, text).Some? ensures DecodeFlexible(text) == Decode(e, text) {
      FlexibleIsAnyDecoder(text, Decode(e, text).value);
    }
    if DecodeFlexible(text).Some? {
      var bytes := DecodeFlexible(text).value;
      FlexibleIsAnyDecoder(text, bytes);
      var e: Encoding :| Decode(e, text) == Some(bytes);
    }
  }

  lemma TrimsToNothing(s: string)
    ensures TrimSpace(s) == "" <==> AllSpace(s)
  {
    var left := TrimLeftSplits(s);
    var right := TrimRightSplits(TrimLeft(s));
    assert s == left + TrimSpace(s) + right;
    if AllSpace(s) {
      TrimLeftPadded(s, "");
      assert s + "" == s;
    }
  }

  /** In local mode a request is forwarded exactly if it presents a proof that is complete, names the
      nonce and network of the challenge, and pays an amount that parses to at least the price. */
  lemma ForwardedExactlyIfPaid(p: Platform, cfg: Config, raw: string, proof: PaymentProof)
    requires cfg.verifyURL == ""
    ensures Serve(p, cfg, raw) == Forwarded(proof) <==>
      && Presents(p, raw, proof)
      && proof.txHash != "" && proof.from != "" && proof.amount != "" && proof.nonce != ""
      && proof.network in {"arc", "base", "ethereum"}
      && proof.network == cfg.network
      && proof.nonce == (if cfg.nonce != "" then cfg.nonce
                         else Encode(Encoding(true, false), p.hmac(cfg.hmacSecret, "x402-nonce:" + cfg.resource)))
      && p.parseFloat(TrimSpace(proof.amount)).Some?
      && AtLeast(p.parseFloat(TrimSpace(proof.amount)).value, cfg.priceValue)
  {
    ParsedExactlyIfComplete(p, raw, proof);
  }

  /** With a verifier configured a request is forwarded exactly if it presents a complete proof to
      which the verifier, asked with the challenge's requirements, has no objection. */
  lemma ForwardedExactlyIfVerified(p: Platform, cfg: Config, raw: string, proof: PaymentProof)
    requires cfg.verifyURL != ""
    ensures Serve(p, cfg, raw) == Forwarded(proof) <==>
      && Presents(p, raw, proof)
      && proof.txHash != "" && proof.from != "" && proof.amount != "" && proof.nonce != ""
      && proof.network in {"arc", "base", "ethereum"}
      && p.verifyRemotely(proof, BuildRequirements(p, cfg, cfg.resource)).None?
  {
    ParsedExactlyIfComplete(p, raw, proof);
  }

  /** A request that is not forwarded is challenged, and every challenge states the same requirements. */
  lemma ChallengeStatesRequirements(p: Platform, cfg: Config, raw: string)
    ensures Serve(p, cfg, raw).Forwarded? || Serve(p, cfg, raw).requirements ==
      PaymentRequirements(
        scheme := "x402", amount := cfg.price, asset := cfg.currency, network := cfg.network,
        payTo := cfg.payTo, productID := cfg.productID, resource := cfg.resource,
        nonce := if cfg.nonce != "" then cfg.nonce
                 else Encode(Encoding(true, false), p.hmac(cfg.hmacSecret, "x402-nonce:" + cfg.resource)))
    ensures Serve(p, cfg, raw).Challenge? && Serve(p, cfg, raw).reason.None? <==> AllSpace(raw)
  {
    HeaderKinds(p, raw);
  }

  /** The codec carries this proof, and the keyed hash is not empty. */
  ghost predicate Carries(p: Platform, cfg: Config, proof: PaymentProof) {
    && p.fromJson(p.toJson(proof)) == Some(proof) && p.toJson(proof) != []
    && p.hmac(cfg.hmacSecret, "x402-nonce:" + cfg.resource) != []
  }

  lemma Base64IsTrimmed(e: Encoding, bytes: seq<Byte>)
    ensures Trimmed(Encode(e, bytes))
  {
    var s := Encode(e, bytes);
    EncodeIsBase64(e, bytes);
    assert s != "" ==> !IsSpace(s[0]) && !IsSpace(s[|s| - 1]);
  }

  /** A header made by EncodePaymentHeader parses to its proof, whatever white space surrounds it. */
  lemma EncodedHeaderIsParsed(p: Platform, proof: PaymentProof, left: string, right: string)
    requires p.fromJson(p.toJson(proof)) == Some(proof) && p.toJson(proof) != []
    requires proof.txHash != "" && proof.from != "" && proof.amount != "" && proof.nonce != ""
    requires proof.network in {"arc", "base", "ethereum"}
    requires AllSpace(left) && AllSpace(right)
    ensures ParsePaymentHeader(p, left + EncodePaymentHeader(p, proof) + right) == Proof(proof)
    ensures EncodePaymentHeader(p, proof) == Encode(Encoding(false, true), p.toJson(proof))
  {
    var header := EncodePaymentHeader(p, proof);
    Base64IsTrimmed(STD, p.toJson(proof));
    EncodeIsBase64(STD, p.toJson(proof));
    TrimSpacePadded(left, header, right);
    DecodeInvertsEncode(STD, p.toJson(proof));
    FlexibleIsAnyDecoder(header, p.toJson(proof));
  }

  /** Answering a challenge: under a loaded configuration without a remote verifier, a complete proof
      that answers the challenge, in the header that EncodePaymentHeader makes and with any white
      space around it, is forwarded exactly if it pays enough. */
  lemma AnswerIsForwardedIfEnough(p: Platform, cfg: Config, proof: PaymentProof, left: string, right: string)
    requires Loaded(p, cfg) && cfg.verifyURL == ""
    requires Carries(p, cfg, proof) && Answers(proof, BuildRequirements(p, cfg, cfg.resource))
    requires proof.txHash != "" && proof.from != "" && proof.amount != ""
    requires AllSpace(left) && AllSpace(right)
    ensures Serve(p, cfg, left + EncodePaymentHeader(p, proof) + right) == Forwarded(proof) <==> PaysEnough(p, cfg, proof)
  {
    EncodeIsBase64(RAW_URL, p.hmac(cfg.hmacSecret, "x402-nonce:" + cfg.resource));
    EncodedHeaderIsParsed(p, proof, left, right);
  }

  /** Challenge completeness: echoing the challenge's amount pays enough for every loaded
      configuration, except where the configured price parsed to NaN. */
  lemma EchoIsForwarded(p: Platform, cfg: Config, proof: PaymentProof, left: string, right: string)
    requires Loaded(p, cfg) && cfg.verifyURL == ""
    requires Carries(p, cfg, proof) && Answers(proof, BuildRequirements(p, cfg, cfg.resource))
    requires proof.amount == BuildRequirements(p, cfg, cfg.resource).amount
    requires proof.txHash != "" && proof.from != ""
    requires AllSpace(left) && AllSpace(right)
    ensures Serve(p, cfg, left + EncodePaymentHeader(p, proof) + right) == Forwarded(proof) <==> cfg.priceValue != NaN
  {
    AnswerIsForwardedIfEnough(p, cfg, proof, left, right);
    TrimSpacePadded("", cfg.price, "");
    assert "" + cfg.price + "" == cfg.price;
    AtLeastItself(cfg.priceValue);
  }

  // ---- amounts --------------------------------------------------------------------------------------------

  /** A sufficient amount is never refused: where amount and price are decimal numerals in range,
      however they are spelled, and the amount is numerically at least the price, the check
      succeeds, because rounding to nearest is monotone. It succeeds for an insufficient amount
      exactly where both round to the same number. */
  lemma SufficientAmountIsEnough(p: Platform, round: real -> real, representable: iset<real>, limit: real,
                                 cfg: Config, proof: PaymentProof)
    requires RoundsToNearest(round, representable) && ParsesDecimals(p.parseFloat, round, limit)
    requires InRange(cfg.price, limit) && p.parseFloat(cfg.price) == Some(cfg.priceValue)
    requires InRange(TrimSpace(proof.amount), limit)
    ensures var paid, price := DecimalValue(TrimSpace(proof.amount)).value, DecimalValue(cfg.price).value;
      PaysEnough(p, cfg, proof) <==> paid >= price || round(paid) == round(price)
  {
    var paid, price := DecimalValue(TrimSpace(proof.amount)).value, DecimalValue(cfg.price).value;
    if price <= paid {
      RoundingIsMonotone(round, representable, price, paid);
    } else {
      RoundingIsMonotone(round, representable, paid, price);
    }
  }

  /** Such an amount: one unit against a price above it by less than half the distance to any other
      representable number near one. */
  lemma SlightlyLessCanBeEnough(round: real -> real, representable: iset<real>)
    requires RoundsToNearest(round, representable)
    requires 1.0 in representable
    requires forall f: real :: f in representable && f != 1.0 ==> Abs(f - 1.0) > 0.000000000000000_1
    ensures 1.0 < 1.000000000000000_000_01 && round(1.0) == round(1.000000000000000_000_01)
  {
    var x := 1.000000000000000_000_01;
    assert Abs(x - round(x)) <= Abs(x - 1.0);
    assert Abs(1.0 - round(1.0)) <= Abs(1.0 - 1.0);
  }
}
