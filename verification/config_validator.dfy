/** The configuration validator (config_validator.py): a total check of a
    config.json document that collects one error per problem found, in the
    order the checks run. */
module ConfigValidator {
  import opened Util
  import opened Json

  type Config = map<string, JsonValue>

  /** One message of the error list. */
  datatype ConfigError =
    | MissingField(field: string)
    | BadAccountAddress
    | BadSecretKey
    | OutOfRange(field: string)
    | NotConvertible(field: string)
    | NotBoolean(field: string)
    | ShortsNotList
    | BadShortSymbol(symbol: JsonValue)
    | RatioOrder
    | ApiDelaysNotObject
    | DelayOutOfRange(field: string)
    | DelayNotInteger(field: string)
    | BadTelegramToken
    | BadTelegramChatId

  /** The fields every config must have. */
  const RequiredFields: seq<string> :=
    ["account_address", "secret_key", "start_nav", "gross", "ratio_tgt", "ratio_low", "ratio_high",
     "leverage_btc", "leverage_shorts", "shorts"]

  /** `float` or `int`, the conversion a numeric field must survive. */
  datatype NumKind = FloatKind | IntKind

  /** A numeric field, its conversion and its inclusive range. */
  datatype NumericSpec = NumericSpec(field: string, kind: NumKind, lo: real, hi: real)

  const NumericSpecs: seq<NumericSpec> := [
    NumericSpec("start_nav", FloatKind, 1.0, 1000000.0),
    NumericSpec("gross", FloatKind, 1.0, 10.0),
    NumericSpec("ratio_tgt", FloatKind, 0.1, 10.0),
    NumericSpec("ratio_low", FloatKind, 0.1, 10.0),
    NumericSpec("ratio_high", FloatKind, 0.1, 10.0),
    NumericSpec("leverage_btc", IntKind, 1.0, 50.0),
    NumericSpec("leverage_shorts", IntKind, 1.0, 50.0)]

  const OptionalSpecs: seq<NumericSpec> := [
    NumericSpec("reserve_usd_percent", FloatKind, 0.0, 0.5),
    NumericSpec("stop_loss_pct", FloatKind, 0.01, 0.5),
    NumericSpec("min_shorts", IntKind, 1.0, 10.0)]

  const DelayFields: seq<string> := ["order_processing", "leverage_update", "position_check"]

  /** The first block: one error per missing required field, in list order. */
  function MissingErrors(config: Config, fields: seq<string>): (r: seq<ConfigError>)
    ensures forall e :: e in r ==> e.MissingField?
    ensures forall f :: f in fields && f !in config <==> MissingField(f) in r
    ensures forall f :: f !in fields ==> multiset(r)[MissingField(f)] == 0
  {
    if |fields| == 0 then []
    else
      var rest := MissingErrors(config, fields[..|fields| - 1]);
      var f := fields[|fields| - 1];
      assert forall g :: g in fields <==> g in fields[..|fields| - 1] || g == f;
      rest + (if f in config then [] else [MissingField(f)])
  }

  /** Each missing field is reported exactly once, since no field is listed
      twice. */
  lemma {:induction false} MissingReportedOnce(config: Config, fields: seq<string>, f: string)
    requires forall i, j :: 0 <= i < j < |fields| ==> fields[i] != fields[j]
    requires f in fields && f !in config
    ensures multiset(MissingErrors(config, fields))[MissingField(f)] == 1
  {
    var p := fields[..|fields| - 1];
    var last := fields[|fields| - 1];
    if last == f {
      assert f !in p;
    } else {
      assert f in p;
      MissingReportedOnce(config, p, f);
    }
  }

  /** `isinstance(v, str) and v.startswith('0x')`. */
  predicate HexString(v: JsonValue)
  {
    v.JStr? && |v.s| >= 2 && v.s[..2] == "0x"
  }

  /** The address and key checks. */
  function KeyErrors(config: Config): (r: seq<ConfigError>)
    ensures BadAccountAddress in r <==> "account_address" in config && !HexString(config["account_address"])
    ensures BadSecretKey in r <==> "secret_key" in config && !HexString(config["secret_key"])
  {
    (if "account_address" in config && !HexString(config["account_address"]) then [BadAccountAddress] else [])
    + (if "secret_key" in config && !HexString(config["secret_key"]) then [BadSecretKey] else [])
  }

  /** The value of a field under its conversion; None when it raises. */
  function Convert(kind: NumKind, v: JsonValue): (r: Option<real>)
    ensures kind == FloatKind ==> r == ToFloat(v)
    ensures kind == IntKind ==> (r.Some? <==> ToInt(v).Some?) && (r.Some? ==> r.value == ToInt(v).value as real)
  {
    match kind
    case FloatKind => ToFloat(v)
    case IntKind => match ToInt(v) case Some(i) => Some(i as real) case None => None
  }

  /** The error, if any, for one numeric field. */
  function NumericError(config: Config, spec: NumericSpec): (r: Option<ConfigError>)
    ensures spec.field !in config ==> r.None?
    ensures spec.field in config && Convert(spec.kind, config[spec.field]).None? ==> r == Some(NotConvertible(spec.field))
    ensures spec.field in config && Convert(spec.kind, config[spec.field]).Some? ==>
              var x := Convert(spec.kind, config[spec.field]).value;
              (r.None? <==> spec.lo <= x <= spec.hi) && (r.Some? ==> r.value == OutOfRange(spec.field))
  {
    if spec.field !in config then None
    else match Convert(spec.kind, config[spec.field])
      case None => Some(NotConvertible(spec.field))
      case Some(x) => if spec.lo <= x <= spec.hi then None else Some(OutOfRange(spec.field))
  }

  function NumericErrors(config: Config, specs: seq<NumericSpec>): (r: seq<ConfigError>)
    ensures forall i :: 0 <= i < |specs| && NumericError(config, specs[i]).Some? ==> NumericError(config, specs[i]).value in r
    ensures forall e :: e in r ==> exists i :: 0 <= i < |specs| && NumericError(config, specs[i]) == Some(e)
  {
    if |specs| == 0 then []
    else
      var p := specs[..|specs| - 1];
      var rest := NumericErrors(config, p);
      var last := NumericError(config, specs[|specs| - 1]);
      assert forall i :: 0 <= i < |p| ==> p[i] == specs[i];
      rest + (if last.Some? then [last.value] else [])
  }

  /** `rebalance_enabled`, if present, must be a bool. */
  function BoolErrors(config: Config): (r: seq<ConfigError>)
    ensures r != [] <==> "rebalance_enabled" in config && !config["rebalance_enabled"].JBool?
  {
    if "rebalance_enabled" in config && !config["rebalance_enabled"].JBool? then [NotBoolean("rebalance_enabled")] else []
  }

  /** A usable symbol: a non-empty string. */
  predicate GoodSymbol(v: JsonValue)
  {
    v.JStr? && |v.s| > 0
  }

  function BadSymbols(items: seq<JsonValue>): (r: seq<ConfigError>)
    ensures forall e :: e in r <==> e.BadShortSymbol? && e.symbol in items && !GoodSymbol(e.symbol)
  {
    if |items| == 0 then []
    else
      var last := items[|items| - 1];
      assert forall v :: v in items <==> v in items[..|items| - 1] || v == last;
      BadSymbols(items[..|items| - 1]) + (if GoodSymbol(last) then [] else [BadShortSymbol(last)])
  }

  /** `shorts`, if present, must be a non-empty list of non-empty strings. */
  function ShortsErrors(config: Config): (r: seq<ConfigError>)
    ensures "shorts" !in config ==> r == []
    ensures "shorts" in config ==>
              (r == [ShortsNotList] <==> !config["shorts"].JList? || config["shorts"].items == [])
    ensures "shorts" in config && config["shorts"].JList? && config["shorts"].items != [] ==>
              (r == [] <==> forall v :: v in config["shorts"].items ==> GoodSymbol(v))
  {
    if "shorts" !in config then []
    else match config["shorts"]
      case JList(items) =>
        if items == [] then [ShortsNotList]
        else
          var bad := BadSymbols(items);
          assert bad != [] ==> bad[0] in bad && bad[0].symbol in items && !GoodSymbol(bad[0].symbol);
          assert (forall v :: v in items ==> GoodSymbol(v)) ==> bad == [];
          assert bad == [] ==> forall v :: v in items ==> GoodSymbol(v) by {
            if bad == [] {
              forall v | v in items ensures GoodSymbol(v) {
                assert !GoodSymbol(v) ==> BadShortSymbol(v) in bad;
              }
            }
          }
          bad
      case _ => [ShortsNotList]
  }

  /** Python `a <= b` on two config values: numbers compare as numbers and
      strings by code point; anything else raises TypeError (None). */
  function PyLe(a: JsonValue, b: JsonValue): (r: Option<bool>)
    ensures AsNumber(a).Some? && AsNumber(b).Some? ==> r == Some(AsNumber(a).value <= AsNumber(b).value)
    ensures a.JStr? && b.JStr? ==> r == Some(StrLe(a.s, b.s))
  {
    if AsNumber(a).Some? && AsNumber(b).Some? then Some(AsNumber(a).value <= AsNumber(b).value)
    else if a.JStr? && b.JStr? then Some(StrLe(a.s, b.s))
    else None
  }

  /** Lexicographic order on strings. */
  predicate StrLe(a: string, b: string)
  {
    if |a| == 0 then true
    else if |b| == 0 then false
    else if a[0] != b[0] then a[0] < b[0]
    else StrLe(a[1..], b[1..])
  }

  /** `low <= tgt <= high`: the second comparison runs only when the first holds. */
  function Ordered(low: JsonValue, tgt: JsonValue, high: JsonValue): (r: Option<bool>)
    ensures PyLe(low, tgt) == Some(false) ==> r == Some(false)
    ensures PyLe(low, tgt) == Some(true) ==> r == PyLe(tgt, high)
    ensures PyLe(low, tgt).None? ==> r.None?
  {
    match PyLe(low, tgt)
    case None => None
    case Some(false) => Some(false)
    case Some(true) => PyLe(tgt, high)
  }

  predicate HasRatios(config: Config)
  {
    "ratio_low" in config && "ratio_tgt" in config && "ratio_high" in config
  }

  /** The ratio-order check; None when the comparison raises. */
  function RatioErrors(config: Config): (r: Option<seq<ConfigError>>)
    ensures !HasRatios(config) ==> r == Some([])
    ensures HasRatios(config) ==>
              var o := Ordered(config["ratio_low"], config["ratio_tgt"], config["ratio_high"]);
              && (r.None? <==> o.None?)
              && (r.Some? ==> (r.value == [RatioOrder] <==> o == Some(false)) && (r.value == [] <==> o == Some(true)))
  {
    if !HasRatios(config) then Some([])
    else match Ordered(config["ratio_low"], config["ratio_tgt"], config["ratio_high"])
      case None => None
      case Some(true) => Some([])
      case Some(false) => Some([RatioOrder])
  }

  /** The checks of `api_delays`' entries. */
  function DelayErrors(delays: map<string, JsonValue>, fields: seq<string>): (r: seq<ConfigError>)
    ensures forall f :: f in fields && f in delays && ToInt(delays[f]).None? ==> DelayNotInteger(f) in r
    ensures forall f :: f in fields && f in delays && ToInt(delays[f]).Some? && !(1 <= ToInt(delays[f]).value <= 30) ==>
              DelayOutOfRange(f) in r
    ensures forall e :: e in r ==> (e.DelayNotInteger? || e.DelayOutOfRange?) && e.field in fields && e.field in delays
    ensures forall f :: f in delays && ToInt(delays[f]).Some? && 1 <= ToInt(delays[f]).value <= 30 ==>
              DelayOutOfRange(f) !in r && DelayNotInteger(f) !in r
  {
    if |fields| == 0 then []
    else
      var f := fields[|fields| - 1];
      var rest := DelayErrors(delays, fields[..|fields| - 1]);
      assert forall g :: g in fields <==> g in fields[..|fields| - 1] || g == f;
      rest + (if f !in delays then []
              else match ToInt(delays[f])
                case None => [DelayNotInteger(f)]
                case Some(n) => if 1 <= n <= 30 then [] else [DelayOutOfRange(f)])
  }

  function ApiDelayErrors(config: Config): (r: seq<ConfigError>)
    ensures "api_delays" !in config ==> r == []
    ensures "api_delays" in config && !config["api_delays"].JObj? ==> r == [ApiDelaysNotObject]
    ensures "api_delays" in config && config["api_delays"].JObj? ==> r == DelayErrors(config["api_delays"].fields, DelayFields)
  {
    if "api_delays" !in config then []
    else match config["api_delays"]
      case JObj(d) => DelayErrors(d, DelayFields)
      case _ => [ApiDelaysNotObject]
  }

  /** `c in s` for a character and a string. */
  predicate Contains(s: string, c: char)
  {
    exists i :: 0 <= i < |s| && s[i] == c
  }

  /** The optional Telegram settings. */
  function TelegramErrors(config: Config): (r: seq<ConfigError>)
    ensures BadTelegramToken in r <==> "telegram_token" in config &&
                                       !(config["telegram_token"].JStr? && Contains(config["telegram_token"].s, ':'))
    ensures BadTelegramChatId in r <==> "telegram_chat_id" in config && ToInt(config["telegram_chat_id"]).None?
  {
    (if "telegram_token" in config && !(config["telegram_token"].JStr? && Contains(config["telegram_token"].s, ':'))
     then [BadTelegramToken] else [])
    + (if "telegram_chat_id" in config && ToInt(config["telegram_chat_id"]).None? then [BadTelegramChatId] else [])
  }

  /** A key none of the checks reads. */
  predicate Unchecked(key: string)
  {
    && key !in RequiredFields
    && (forall i :: 0 <= i < |OptionalSpecs| ==> OptionalSpecs[i].field != key)
    && key !in ["rebalance_enabled", "api_delays", "telegram_token", "telegram_chat_id"]
  }

  /** The required numeric fields are required fields, so an unchecked key
      names no numeric spec. */
  lemma UncheckedKeyIsNoSpecField(key: string)
    requires Unchecked(key)
    ensures forall i :: 0 <= i < |NumericSpecs| ==> NumericSpecs[i].field != key
  {
    assert forall i :: 0 <= i < |NumericSpecs| ==> NumericSpecs[i].field in RequiredFields;
  }

  /** A numeric field, when present, converts and lies in its range. */
  predicate InRange(config: Config, spec: NumericSpec)
  {
    spec.field in config ==>
      Convert(spec.kind, config[spec.field]).Some? && spec.lo <= Convert(spec.kind, config[spec.field]).value <= spec.hi
  }

  /** An `api_delays` entry: an integer from 1 to 30 seconds. */
  predicate GoodDelay(v: JsonValue)
  {
    ToInt(v).Some? && 1 <= ToInt(v).value <= 30
  }

  /** What a config must look like to pass, stated field by field: every
      required field present, 0x keys, numbers converting within their
      ranges, a bool flag, a non-empty list of non-empty symbols, ordered
      ratios, delays from 1 to 30 and well-formed Telegram settings. */
  ghost predicate WellFormedConfig(config: Config)
  {
    && (forall f :: f in RequiredFields ==> f in config)
    && ("account_address" in config ==> HexString(config["account_address"]))
    && ("secret_key" in config ==> HexString(config["secret_key"]))
    && (forall i :: 0 <= i < |NumericSpecs| ==> InRange(config, NumericSpecs[i]))
    && ("rebalance_enabled" in config ==> config["rebalance_enabled"].JBool?)
    && ("shorts" in config ==> config["shorts"].JList? && config["shorts"].items != []
                               && forall v :: v in config["shorts"].items ==> GoodSymbol(v))
    && (HasRatios(config) ==> Ordered(config["ratio_low"], config["ratio_tgt"], config["ratio_high"]) == Some(true))
    && (forall i :: 0 <= i < |OptionalSpecs| ==> InRange(config, OptionalSpecs[i]))
    && ("api_delays" in config ==> config["api_delays"].JObj?
                                   && forall f :: f in DelayFields && f in config["api_delays"].fields ==>
                                        GoodDelay(config["api_delays"].fields[f]))
    && ("telegram_token" in config ==> config["telegram_token"].JStr? && Contains(config["telegram_token"].s, ':'))
    && ("telegram_chat_id" in config ==> ToInt(config["telegram_chat_id"]).Some?)
  }

  /** `validate_config`'s error list, in the order the checks run; None when
      the ratio comparison raises (the exception escapes the method). The
      list is empty exactly for a well-formed config. */
  function ValidationErrors(config: Config): (r: Option<seq<ConfigError>>)
    ensures r.None? <==> HasRatios(config) && Ordered(config["ratio_low"], config["ratio_tgt"], config["ratio_high"]).None?
    ensures r == Some([]) <==> WellFormedConfig(config)
  {
    match RatioErrors(config)
    case None => None
    case Some(ratio) =>
      SectionsEmptyIffWellFormed(config);
      Some(MissingErrors(config, RequiredFields) + KeyErrors(config) + NumericErrors(config, NumericSpecs)
           + BoolErrors(config) + ShortsErrors(config) + ratio + NumericErrors(config, OptionalSpecs)
           + ApiDelayErrors(config) + TelegramErrors(config))
  }

  /** Every section of the list is empty exactly when the config is well formed. */
  lemma SectionsEmptyIffWellFormed(config: Config)
    requires RatioErrors(config).Some?
    ensures (&& MissingErrors(config, RequiredFields) == [] && KeyErrors(config) == []
             && NumericErrors(config, NumericSpecs) == [] && BoolErrors(config) == [] && ShortsErrors(config) == []
             && RatioErrors(config).value == [] && NumericErrors(config, OptionalSpecs) == []
             && ApiDelayErrors(config) == [] && TelegramErrors(config) == [])
            <==> WellFormedConfig(config)
  {
    NoMissingIff(config, RequiredFields);
    NoNumericIff(config, NumericSpecs);
    NoNumericIff(config, OptionalSpecs);
    NoDelayIff(config);
    NoShortsIff(config);
    NoTelegramIff(config);
  }

  lemma NoMissingIff(config: Config, fields: seq<string>)
    ensures MissingErrors(config, fields) == [] <==> forall f :: f in fields ==> f in config
  {
    var r := MissingErrors(config, fields);
    if r != [] {
      assert r[0] in r && r[0].MissingField?;
      assert r[0].field in fields && r[0].field !in config;
    }
  }

  lemma NoNumericIff(config: Config, specs: seq<NumericSpec>)
    ensures NumericErrors(config, specs) == [] <==> forall i :: 0 <= i < |specs| ==> InRange(config, specs[i])
  {
    var r := NumericErrors(config, specs);
    if r != [] {
      assert r[0] in r;
    }
    assert forall i :: 0 <= i < |specs| ==> (NumericError(config, specs[i]).None? <==> InRange(config, specs[i]));
  }

  lemma NoDelayIff(config: Config)
    ensures ApiDelayErrors(config) == [] <==>
              ("api_delays" in config ==> config["api_delays"].JObj?
                                          && forall f :: f in DelayFields && f in config["api_delays"].fields ==>
                                               GoodDelay(config["api_delays"].fields[f]))
  {
    if "api_delays" in config && config["api_delays"].JObj? {
      var d := config["api_delays"].fields;
      var r := DelayErrors(d, DelayFields);
      if r != [] {
        assert r[0] in r;
      }
    }
  }

  lemma NoShortsIff(config: Config)
    ensures ShortsErrors(config) == [] <==>
              ("shorts" in config ==> config["shorts"].JList? && config["shorts"].items != []
                                      && forall v :: v in config["shorts"].items ==> GoodSymbol(v))
  {
  }

  lemma NoTelegramIff(config: Config)
    ensures TelegramErrors(config) == [] <==>
              && ("telegram_token" in config ==> config["telegram_token"].JStr? && Contains(config["telegram_token"].s, ':'))
              && ("telegram_chat_id" in config ==> ToInt(config["telegram_chat_id"]).Some?)
  {
  }

  /** What `validate_config` and `validate_and_raise` come to. */
  datatype Verdict = Valid | Invalid(errors: seq<ConfigError>) | ComparisonRaised

  /** `validate_config`: `is_valid` iff the error list is empty. */
  function ValidateConfig(config: Config): (r: Verdict)
    ensures r == ComparisonRaised <==> ValidationErrors(config).None?
    ensures r == Valid <==> ValidationErrors(config) == Some([])
    ensures r.Invalid? ==> r.errors != [] && Some(r.errors) == ValidationErrors(config)
  {
    match ValidationErrors(config)
    case None => ComparisonRaised
    case Some(errors) => if errors == [] then Valid else Invalid(errors)
  }

  /** `validate_and_raise` raises iff the config is not valid. */
  predicate ValidateAndRaiseRaises(config: Config)
  {
    ValidateConfig(config) != Valid
  }

  /** A valid config leaves every section of the error list empty. */
  lemma ValidSectionsEmpty(config: Config)
    requires !ValidateAndRaiseRaises(config)
    ensures MissingErrors(config, RequiredFields) == [] && KeyErrors(config) == []
    ensures NumericErrors(config, NumericSpecs) == [] && ShortsErrors(config) == []
    ensures RatioErrors(config) == Some([])
  {
    var errors := ValidationErrors(config).value;
    assert |errors| == |MissingErrors(config, RequiredFields)| + |KeyErrors(config)|
                       + |NumericErrors(config, NumericSpecs)| + |BoolErrors(config)| + |ShortsErrors(config)|
                       + |RatioErrors(config).value| + |NumericErrors(config, OptionalSpecs)|
                       + |ApiDelayErrors(config)| + |TelegramErrors(config)|;
  }

  lemma RequiredPresent(config: Config)
    requires MissingErrors(config, RequiredFields) == []
    ensures forall f :: f in RequiredFields ==> f in config
    ensures "account_address" in config && "secret_key" in config && "shorts" in config && HasRatios(config)
    ensures "leverage_btc" in config && "leverage_shorts" in config
  {
    RequiredKeysPresent(config);
    RequiredRatiosPresent(config);
    RequiredLeveragesPresent(config);
  }

  lemma RequiredKeysPresent(config: Config)
    requires forall f :: f in RequiredFields ==> f in config
    ensures "account_address" in config && "secret_key" in config && "shorts" in config
  {
    assert RequiredFields[0] == "account_address" && RequiredFields[1] == "secret_key";
    assert RequiredFields[9] == "shorts";
  }

  lemma RequiredRatiosPresent(config: Config)
    requires forall f :: f in RequiredFields ==> f in config
    ensures HasRatios(config)
  {
    assert RequiredFields[4] == "ratio_tgt" && RequiredFields[5] == "ratio_low" && RequiredFields[6] == "ratio_high";
  }

  lemma RequiredLeveragesPresent(config: Config)
    requires forall f :: f in RequiredFields ==> f in config
    ensures "leverage_btc" in config && "leverage_shorts" in config
  {
    assert RequiredFields[7] == "leverage_btc" && RequiredFields[8] == "leverage_shorts";
  }

  lemma NumbersInRange(config: Config, specs: seq<NumericSpec>)
    requires NumericErrors(config, specs) == []
    ensures forall i :: 0 <= i < |specs| ==> NumericError(config, specs[i]).None?
  {
  }

  /** A valid config has every required field, well-formed keys, numbers in
      range, a non-empty list of symbols and ordered ratios. */
  lemma ValidConfigShape(config: Config)
    requires !ValidateAndRaiseRaises(config)
    ensures forall f :: f in RequiredFields ==> f in config
    ensures "account_address" in config && HexString(config["account_address"])
    ensures "secret_key" in config && HexString(config["secret_key"])
    ensures forall i :: 0 <= i < |NumericSpecs| ==> NumericError(config, NumericSpecs[i]).None?
    ensures "shorts" in config && config["shorts"].JList? && config["shorts"].items != []
            && forall v :: v in config["shorts"].items ==> GoodSymbol(v)
    ensures HasRatios(config) && Ordered(config["ratio_low"], config["ratio_tgt"], config["ratio_high"]) == Some(true)
  {
    ValidSectionsEmpty(config);
    RequiredPresent(config);
    NumbersInRange(config, NumericSpecs);
  }

  /** A valid config's leverages are integers from 1 to 50 once `int` has
      been applied to them. */
  lemma ValidLeverages(config: Config)
    requires !ValidateAndRaiseRaises(config)
    ensures "leverage_btc" in config && ToInt(config["leverage_btc"]).Some? && 1 <= ToInt(config["leverage_btc"]).value <= 50
    ensures "leverage_shorts" in config && ToInt(config["leverage_shorts"]).Some? && 1 <= ToInt(config["leverage_shorts"]).value <= 50
  {
    ValidSectionsEmpty(config);
    NumbersInRange(config, NumericSpecs);
    LeverageInRange(config, NumericSpecs[5]);
    LeverageInRange(config, NumericSpecs[6]);
    LeverageSpecs();
  }

  lemma LeverageSpecs()
    ensures NumericSpecs[5] == NumericSpec("leverage_btc", IntKind, 1.0, 50.0)
    ensures NumericSpecs[6] == NumericSpec("leverage_shorts", IntKind, 1.0, 50.0)
  {
  }

  /** An integer field that passed its range check converts within it. */
  lemma LeverageInRange(config: Config, spec: NumericSpec)
    requires spec.kind == IntKind && spec.lo == 1.0 && spec.hi == 50.0
    requires spec.field in config && NumericError(config, spec).None?
    ensures ToInt(config[spec.field]).Some? && 1 <= ToInt(config[spec.field]).value <= 50
  {
  }

  /** An out-of-range value is reported as such, never as unconvertible. */
  lemma OutOfRangeReported(config: Config, i: int)
    requires 0 <= i < |NumericSpecs| && NumericSpecs[i].field in config
    requires Convert(NumericSpecs[i].kind, config[NumericSpecs[i].field]).Some?
    requires var x := Convert(NumericSpecs[i].kind, config[NumericSpecs[i].field]).value;
             !(NumericSpecs[i].lo <= x <= NumericSpecs[i].hi)
    requires RatioErrors(config).Some?
    ensures OutOfRange(NumericSpecs[i].field) in ValidationErrors(config).value
    ensures NotConvertible(NumericSpecs[i].field) !in NumericErrors(config, NumericSpecs)
  {
    var e := OutOfRange(NumericSpecs[i].field);
    assert e in NumericErrors(config, NumericSpecs);
    NumericReported(config, e);
    NeverUnconvertible(config, i);
  }

  /** Every error of the required numeric fields is in the validator's list. */
  lemma NumericReported(config: Config, e: ConfigError)
    requires RatioErrors(config).Some? && e in NumericErrors(config, NumericSpecs)
    ensures e in ValidationErrors(config).value
  {
    var s2 := MissingErrors(config, RequiredFields) + KeyErrors(config);
    var s3 := s2 + NumericErrors(config, NumericSpecs);
    InConcat(s2, NumericErrors(config, NumericSpecs), e);
    var s4 := s3 + BoolErrors(config);
    InConcat(s3, BoolErrors(config), e);
    var s5 := s4 + ShortsErrors(config);
    InConcat(s4, ShortsErrors(config), e);
    var s6 := s5 + RatioErrors(config).value;
    InConcat(s5, RatioErrors(config).value, e);
    var s7 := s6 + NumericErrors(config, OptionalSpecs);
    InConcat(s6, NumericErrors(config, OptionalSpecs), e);
    var s8 := s7 + ApiDelayErrors(config);
    InConcat(s7, ApiDelayErrors(config), e);
    InConcat(s8, TelegramErrors(config), e);
  }

  lemma InConcat<T>(a: seq<T>, b: seq<T>, e: T)
    ensures e in a || e in b ==> e in a + b
  {
  }

  /** A field whose value converts is never reported as unconvertible. */
  lemma NeverUnconvertible(config: Config, i: int)
    requires 0 <= i < |NumericSpecs| && NumericSpecs[i].field in config
    requires Convert(NumericSpecs[i].kind, config[NumericSpecs[i].field]).Some?
    ensures NotConvertible(NumericSpecs[i].field) !in NumericErrors(config, NumericSpecs)
  {
    SpecFieldsDistinct();
    assert forall j :: 0 <= j < |NumericSpecs| ==> NumericError(config, NumericSpecs[j]) != Some(NotConvertible(NumericSpecs[i].field));
  }

  /** No two numeric specs name the same field. */
  lemma SpecFieldsDistinct()
    ensures forall i, j :: 0 <= i < j < |NumericSpecs| ==> NumericSpecs[i].field != NumericSpecs[j].field
  {
  }
}
