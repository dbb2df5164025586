/** The configuration manager (config_manager.py): the loaded config.json
    document, read through `get` and typed accessors whose defaults apply
    when a key is absent. The accessors hand back the stored value as it is;
    nothing is converted. Reading the file is an input: the parsed document,
    or None when opening or parsing it fails. */
module ConfigManager {
  import opened Util
  import opened Json
  import opened ConfigValidator

  datatype Manager = Manager(config: Config)

  /** The constructor: the document loads only when the validator finds
      nothing wrong (a file or JSON error, the validator's exception and a
      comparison that raises all propagate). */
  function Load(document: Option<Config>): (r: Option<Manager>)
    ensures r.Some? <==> document.Some? && ValidateConfig(document.value) == Valid
    ensures r.Some? ==> r.value.config == document.value
  {
    match document
    case None => None
    case Some(config) => if ValidateConfig(config) == Valid then Some(Manager(config)) else None
  }

  /** `get(key, default)`. */
  function GetValue(m: Manager, key: string, default: JsonValue): (v: JsonValue)
    ensures key in m.config ==> v == m.config[key]
    ensures key !in m.config ==> v == default
  {
    Get(m.config, key, default)
  }

  /** `set(key, value)`: not validated. */
  function SetValue(m: Manager, key: string, value: JsonValue): (r: Manager)
    ensures r.config.Keys == m.config.Keys + {key}
  {
    Manager(m.config[key := value])
  }

  /** A value set is read back, and every other key reads as before. */
  lemma GetAfterSet(m: Manager, key: string, value: JsonValue, other: string, default: JsonValue)
    ensures GetValue(SetValue(m, key, value), key, default) == value
    ensures other != key ==> GetValue(SetValue(m, key, value), other, default) == GetValue(m, other, default)
  {
  }

  /** `account_address` and `secret_key` index the document directly
      (`self.config[key]`), so a missing key raises KeyError (None). */
  function Indexed(m: Manager, key: string): (r: Option<JsonValue>)
    ensures r.Some? <==> key in m.config
    ensures r.Some? ==> r.value == m.config[key]
  {
    if key in m.config then Some(m.config[key]) else None
  }

  function AccountAddress(m: Manager): Option<JsonValue> { Indexed(m, "account_address") }

  function SecretKey(m: Manager): Option<JsonValue> { Indexed(m, "secret_key") }

  /** The accessors that fall back to a default. */
  datatype Setting =
    | CommissionPct | Shorts | StartNav | RebalanceThreshold | RatioLow | RatioHigh
    | MaxLeverage | LeverageBtc | LeverageShorts | ReserveUsdPercent | RatioTarget

  /** The key each accessor reads; the ratio target is stored as `ratio_tgt`. */
  function KeyOf(s: Setting): string
  {
    match s
    case CommissionPct => "commission_pct"
    case Shorts => "shorts"
    case StartNav => "start_nav"
    case RebalanceThreshold => "rebalance_threshold"
    case RatioLow => "ratio_low"
    case RatioHigh => "ratio_high"
    case MaxLeverage => "max_leverage"
    case LeverageBtc => "leverage_btc"
    case LeverageShorts => "leverage_shorts"
    case ReserveUsdPercent => "reserve_usd_percent"
    case RatioTarget => "ratio_tgt"
  }

  /** The value each accessor returns when its key is absent. */
  function DefaultOf(s: Setting): JsonValue
  {
    match s
    case CommissionPct => JReal(0.0004)
    case Shorts => JList([])
    case StartNav => JReal(100.0)
    case RebalanceThreshold => JReal(0.02)
    case RatioLow => JReal(1.8)
    case RatioHigh => JReal(2.2)
    case MaxLeverage => JInt(5)
    case LeverageBtc => JInt(3)
    case LeverageShorts => JInt(3)
    case ReserveUsdPercent => JReal(0.05)
    case RatioTarget => JReal(2.0)
  }

  /** The typed accessors: the stored value, else the default. */
  function Read(m: Manager, s: Setting): (v: JsonValue)
    ensures KeyOf(s) in m.config ==> v == m.config[KeyOf(s)]
    ensures KeyOf(s) !in m.config ==> v == DefaultOf(s)
  {
    GetValue(m, KeyOf(s), DefaultOf(s))
  }

  /** Different accessors read different keys, so setting one leaves every
      other accessor's value alone. */
  lemma SettingsIndependent(m: Manager, s: Setting, t: Setting, value: JsonValue)
    requires s != t
    ensures Read(SetValue(m, KeyOf(s), value), t) == Read(m, t)
    ensures Read(SetValue(m, KeyOf(s), value), s) == value
  {
  }

  /** `all_symbols`: BTC followed by the shorts; `['BTC'] + shorts` raises
      TypeError unless the shorts are a list. */
  function AllSymbols(m: Manager): (r: Option<seq<JsonValue>>)
    ensures r.Some? <==> Read(m, Shorts).JList?
    ensures r.Some? ==> |r.value| == |Read(m, Shorts).items| + 1 && r.value[0] == JStr(Core)
                        && r.value[1..] == Read(m, Shorts).items
  {
    match Read(m, Shorts)
    case JList(items) => Some([JStr(Core)] + items)
    case _ => None
  }

  /** `validate_config` on the current document (which `set` may have changed
      since loading): True iff the document is well formed; None when the
      validator's ratio comparison raises, which propagates. */
  function IsValid(m: Manager): (r: Option<bool>)
    ensures r.None? <==> ValidationErrors(m.config).None?
    ensures r == Some(true) <==> WellFormedConfig(m.config)
  {
    match ValidateConfig(m.config)
    case ComparisonRaised => None
    case Valid => Some(true)
    case Invalid(_) => Some(false)
  }

  /** A manager that loaded holds a valid document. */
  lemma LoadedIsValid(document: Option<Config>)
    requires Load(document).Some?
    ensures IsValid(Load(document).value) == Some(true)
  {
  }

  /** Setting a key the validator never reads leaves the verdict as it was. */
  lemma SetUncheckedKeepsValidity(m: Manager, key: string, value: JsonValue)
    requires Unchecked(key)
    ensures IsValid(SetValue(m, key, value)) == IsValid(m)
  {
    var c := m.config;
    var c' := SetValue(m, key, value).config;
    UncheckedKeyIsNoSpecField(key);
    assert HasRatios(c') == HasRatios(c);
    assert forall i :: 0 <= i < |NumericSpecs| ==> (InRange(c', NumericSpecs[i]) <==> InRange(c, NumericSpecs[i]));
    assert forall i :: 0 <= i < |OptionalSpecs| ==> (InRange(c', OptionalSpecs[i]) <==> InRange(c, OptionalSpecs[i]));
    assert WellFormedConfig(c') <==> WellFormedConfig(c);
  }

  /** A loaded manager's symbols are BTC and at least one non-empty string,
      and its leverages convert to integers from 1 to 50. */
  lemma LoadedConfigIsUsable(document: Option<Config>)
    requires Load(document).Some?
    ensures var m := Load(document).value;
            && AllSymbols(m).Some? && |AllSymbols(m).value| >= 2
            && (forall v :: v in AllSymbols(m).value ==> v.JStr? && |v.s| > 0)
            && ToInt(Read(m, LeverageBtc)).Some? && 1 <= ToInt(Read(m, LeverageBtc)).value <= 50
            && ToInt(Read(m, LeverageShorts)).Some? && 1 <= ToInt(Read(m, LeverageShorts)).value <= 50
  {
    var m := Load(document).value;
    assert ValidateConfig(m.config) == Valid;
    ValidConfigShape(m.config);
    ValidLeverages(m.config);
    SymbolsOfValidShorts(m);
    ReadLeverages(m);
  }

  lemma ReadLeverages(m: Manager)
    requires "leverage_btc" in m.config && "leverage_shorts" in m.config
    ensures Read(m, LeverageBtc) == m.config["leverage_btc"]
    ensures Read(m, LeverageShorts) == m.config["leverage_shorts"]
  {
  }

  lemma SymbolsOfValidShorts(m: Manager)
    requires "shorts" in m.config && m.config["shorts"].JList? && m.config["shorts"].items != []
    requires forall v :: v in m.config["shorts"].items ==> GoodSymbol(v)
    ensures AllSymbols(m).Some? && |AllSymbols(m).value| >= 2
    ensures forall v :: v in AllSymbols(m).value ==> v.JStr? && |v.s| > 0
  {
    var items := m.config["shorts"].items;
    assert AllSymbols(m).value == [JStr(Core)] + items;
  }
}
