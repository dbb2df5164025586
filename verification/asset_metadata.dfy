/** The asset-metadata provider (asset_metadata.py): normalises the venue's
    `meta()` reply into the per-symbol parameters that order sizing reads, and
    caches the result for five minutes. The venue reply and the clock are
    inputs. */
module AssetMetadata {
  import opened Util
  import opened Json
  import opened OrderExecutor

  /** Seconds a fetched map stays fresh. */
  const MetaTtl: real := 300.0

  /** Defaults written into an entry whose venue record lacks the field. */
  const DefaultStep: string := "0.000001"
  const DefaultMaxLeverage: int := 50

  /** The keys every normalised entry carries, and no others. */
  const EntryKeys: set<string> := {"szDecimals", "szStep", "maxLeverage", "onlyIsolated"}

  /** The provider's `_cache` and `_cache_timestamp`. */
  datatype MetaCache = MetaCache(entries: AssetMeta, stamp: real)

  /** A freshly constructed provider. */
  const InitialCache: MetaCache := MetaCache(map[], 0.0)

  /** What `info.meta()` produced: an exception, a reply that is falsy or has
      no `universe`, or the `universe` list. */
  datatype MetaResponse =
    | MetaRaised
    | MetaInvalid
    | MetaUniverse(universe: seq<JsonValue>)

  /** The `name` of a universe record, when it is a non-empty string. */
  function AssetName(info: map<string, JsonValue>): (r: Option<string>)
    ensures r.Some? <==> "name" in info && info["name"].JStr? && info["name"].s != ""
    ensures r.Some? ==> r.value == info["name"].s
  {
    match Get(info, "name", JNull)
    case JStr(s) => if s != "" then Some(s) else None
    case _ => None
  }

  /** The name under which the i-th universe record is stored, if any. */
  function NameAt(u: seq<JsonValue>, i: int): Option<string>
    requires 0 <= i < |u|
  {
    if u[i].JObj? then AssetName(u[i].fields) else None
  }

  /** No later record of `u` carries the name of record `i`. */
  predicate LastWithName(u: seq<JsonValue>, i: int)
    requires 0 <= i < |u|
  {
    forall j :: i < j < |u| ==> NameAt(u, j) != NameAt(u, i)
  }

  /** The normalised entry built from one universe record. */
  function AssetEntry(info: map<string, JsonValue>): (e: map<string, JsonValue>)
    ensures e.Keys == EntryKeys
  {
    map[
      "szDecimals" := Get(info, "szDecimals", JInt(DefaultSzDecimals)),
      "szStep" := Get(info, "szStep", JStr(DefaultStep)),
      "maxLeverage" := Get(info, "maxLeverage", JInt(DefaultMaxLeverage)),
      "onlyIsolated" := Get(info, "onlyIsolated", JBool(false))]
  }

  /** One pass of the loop over `universe`: a record that is not an object
      makes `.get` raise; a record without a usable name is skipped. */
  function AssetRecord(v: JsonValue): (r: Option<Option<(string, map<string, JsonValue>)>>)
    ensures r.None? <==> !v.JObj?
    ensures r.Some? && r.value.Some? ==> Some(r.value.value.0) == AssetName(v.fields)
                                         && r.value.value.1 == AssetEntry(v.fields)
    ensures r.Some? && r.value.None? ==> AssetName(v.fields).None?
  {
    if !v.JObj? then None
    else match AssetName(v.fields)
      case None => Some(None)
      case Some(n) => Some(Some((n, AssetEntry(v.fields))))
  }

  /** The map built from `universe`; None when some record makes the loop raise. */
  function Normalise(u: seq<JsonValue>): (r: Option<AssetMeta>)
    ensures r.Some? <==> forall i :: 0 <= i < |u| ==> u[i].JObj?
  {
    Collect(AssetRecord, u)
  }

  /** The normalised map is keyed by exactly the usable names of the universe. */
  lemma NormaliseKeys(u: seq<JsonValue>)
    requires Normalise(u).Some?
    ensures forall n :: n in Normalise(u).value <==> exists i :: 0 <= i < |u| && NameAt(u, i) == Some(n)
  {
    CollectKeys(AssetRecord, u);
    forall n | n in Normalise(u).value
      ensures exists i :: 0 <= i < |u| && NameAt(u, i) == Some(n)
    {
      var i :| 0 <= i < |u| && Stores(AssetRecord, u[i], n);
      assert NameAt(u, i) == Some(n);
    }
    forall n | exists i :: 0 <= i < |u| && NameAt(u, i) == Some(n)
      ensures n in Normalise(u).value
    {
      var i :| 0 <= i < |u| && NameAt(u, i) == Some(n);
      assert Stores(AssetRecord, u[i], n);
    }
  }

  /** Every normalised entry carries exactly the four fields, never `minSz`. */
  lemma NormaliseEntries(u: seq<JsonValue>)
    requires Normalise(u).Some?
    ensures forall n :: n in Normalise(u).value ==>
              Normalise(u).value[n].Keys == EntryKeys && "minSz" !in Normalise(u).value[n]
  {
    CollectValues(AssetRecord, u);
    forall n | n in Normalise(u).value
      ensures Normalise(u).value[n].Keys == EntryKeys
    {
      var i :| 0 <= i < |u| && AssetRecord(u[i]) == Some(Some((n, Normalise(u).value[n])));
    }
  }

  /** A later record with the same name replaces an earlier one: the entry
      stored under a name is the one built from its last record. */
  lemma NormaliseLastWins(u: seq<JsonValue>, i: int)
    requires Normalise(u).Some?
    requires 0 <= i < |u| && NameAt(u, i).Some? && LastWithName(u, i)
    ensures NameAt(u, i).value in Normalise(u).value
    ensures Normalise(u).value[NameAt(u, i).value] == AssetEntry(u[i].fields)
  {
    forall j | i < j < |u| ensures !Stores(AssetRecord, u[j], NameAt(u, i).value) {
      assert NameAt(u, j) != NameAt(u, i);
    }
    CollectLastWins(AssetRecord, u, i);
  }

  /** The cache is served: not forced, non-empty and younger than the TTL. */
  predicate CacheFresh(c: MetaCache, now: real, force: bool)
  {
    !force && c.entries != map[] && now - c.stamp < MetaTtl
  }

  /** Python's `get_asset_meta`: the returned map and the provider's new cache. */
  function GetAssetMeta(c: MetaCache, now: real, force: bool, resp: MetaResponse): (out: (AssetMeta, MetaCache))
    ensures CacheFresh(c, now, force) ==> out == (c.entries, c)
    ensures out.1 == c || (resp.MetaUniverse? && out.1 == MetaCache(out.0, now))
    ensures out.1 != c ==> out.0 == out.1.entries
    ensures !CacheFresh(c, now, force) && resp.MetaUniverse? && Normalise(resp.universe).Some? ==>
              out == (Normalise(resp.universe).value, MetaCache(Normalise(resp.universe).value, now))
    ensures !CacheFresh(c, now, force) && (!resp.MetaUniverse? || Normalise(resp.universe).None?) ==>
              out == (c.entries, c)
  {
    if CacheFresh(c, now, force) then (c.entries, c)
    else match resp
      case MetaUniverse(u) =>
        (match Normalise(u)
         case Some(m) => (m, MetaCache(m, now))
         case None => (c.entries, c))
      case _ => (c.entries, c)
  }

  /** A non-empty map fetched at `now` is served, unchanged and without a fetch,
      to every unforced call within the TTL, whatever the venue would reply. */
  lemma FetchedMapServedWithinTtl(c: MetaCache, now: real, u: seq<JsonValue>, later: real, resp: MetaResponse)
    requires !CacheFresh(c, now, false)
    requires Normalise(u).Some? && Normalise(u).value != map[]
    requires now <= later < now + MetaTtl
    ensures var first := GetAssetMeta(c, now, false, MetaUniverse(u));
            GetAssetMeta(first.1, later, false, resp) == (first.0, first.1)
  {
  }

  /** Sizing an entry produced here: `minSz` is never present, so the minimum
      falls back to `10 ** -szDecimals`; with the venue's record lacking
      `szDecimals` and `szStep`, both step and minimum are 10^-6. */
  lemma NormalisedEntrySizing(info: map<string, JsonValue>)
    requires "szDecimals" !in info && "szStep" !in info
    ensures "minSz" !in AssetEntry(info)
    ensures SizeParamsOf(AssetEntry(info)) == Some(SizeParams(Pow10(-6), Pow10(-6), 6))
  {
    var e := AssetEntry(info);
    DefaultEntryFields(info);
    DefaultStepValue();
    assert ToInt(Get(e, "szDecimals", JInt(DefaultSzDecimals))) == Some(6);
    assert ToFloat(Get(e, "szStep", JReal(Pow10(-6)))) == Some(Pow10(-6));
  }

  /** The defaulted fields of an entry built from a record lacking them. */
  lemma DefaultEntryFields(info: map<string, JsonValue>)
    requires "szDecimals" !in info && "szStep" !in info
    ensures AssetEntry(info)["szDecimals"] == JInt(DefaultSzDecimals)
    ensures AssetEntry(info)["szStep"] == JStr(DefaultStep)
    ensures "minSz" !in AssetEntry(info)
  {
  }

  /** The fraction digits of the default step read as 1. */
  lemma DigitsOfMillionth()
    ensures DigitsValue("000001") == 1
  {
    var z := "00000";
    assert z[..4] == "0000" && z[..4][..3] == "000" && z[..4][..3][..2] == "00";
    assert z[..4][..3][..2][..1] == "0" && z[..4][..3][..2][..1][..0] == "";
    assert DigitsValue("0") == 0;
    assert DigitsValue("00") == 0;
    assert DigitsValue("000") == 0;
    assert DigitsValue("0000") == 0;
    assert DigitsValue(z) == 0;
    assert "000001"[..5] == z;
  }

  /** `float('0.000001') == 10 ** -6`. */
  lemma DefaultStepValue()
    ensures ParseDecimal(DefaultStep) == Some(Pow10(-6))
  {
    var body := DefaultStep;
    assert SplitSign(body) == (false, body);
    assert IndexOf(body, '.') == Some(1);
    var frac := body[2..];
    assert frac == "000001";
    assert DigitsValue(body[..1]) == 0;
    DigitsOfMillionth();
    assert Pow(10.0, 6) == 1000000.0;
  }

  /** `get_asset_info(symbol).get(key, default)` over the map `meta`. */
  function Field(meta: AssetMeta, symbol: string, key: string, default: JsonValue): (v: JsonValue)
    ensures symbol !in meta ==> v == default
    ensures symbol in meta && key in meta[symbol] ==> v == meta[symbol][key]
  {
    Get(if symbol in meta then meta[symbol] else map[], key, default)
  }

  /** `get_size_decimals`: `szDecimals`, default 6. */
  function SizeDecimals(meta: AssetMeta, symbol: string): (v: JsonValue)
    ensures symbol !in meta ==> v == JInt(DefaultSzDecimals)
  {
    Field(meta, symbol, "szDecimals", JInt(DefaultSzDecimals))
  }

  /** `get_size_step`: `szStep`, default '0.000001'. */
  function SizeStep(meta: AssetMeta, symbol: string): (v: JsonValue)
    ensures symbol !in meta ==> v == JStr(DefaultStep)
  {
    Field(meta, symbol, "szStep", JStr(DefaultStep))
  }

  /** `get_max_leverage`: `maxLeverage`, default 50. */
  function MaxLeverage(meta: AssetMeta, symbol: string): (v: JsonValue)
    ensures symbol !in meta ==> v == JInt(DefaultMaxLeverage)
  {
    Field(meta, symbol, "maxLeverage", JInt(DefaultMaxLeverage))
  }

  /** The accessors over a normalised universe read back what the last record
      of that name said, or the default when it said nothing. */
  lemma AccessorsReadLastRecord(u: seq<JsonValue>, i: int)
    requires 0 <= i < |u| && NameAt(u, i).Some? && LastWithName(u, i)
    requires Normalise(u).Some?
    ensures var m := Normalise(u).value;
            var info := u[i].fields;
            var n := NameAt(u, i).value;
            && SizeDecimals(m, n) == Get(info, "szDecimals", JInt(DefaultSzDecimals))
            && SizeStep(m, n) == Get(info, "szStep", JStr(DefaultStep))
            && MaxLeverage(m, n) == Get(info, "maxLeverage", JInt(DefaultMaxLeverage))
  {
    NormaliseLastWins(u, i);
  }

  /** `get_asset_metadata_provider`: the module-level provider, created on the
      first call and shared afterwards. */
  function Provider(global: Option<MetaCache>): (out: (MetaCache, Option<MetaCache>))
    ensures out.1 == Some(out.0)
    ensures global.Some? ==> out.0 == global.value
    ensures global.None? ==> out.0 == InitialCache
  {
    match global
    case Some(p) => (p, global)
    case None => (InitialCache, Some(InitialCache))
  }

  /** Every later call returns the provider the first call created. */
  lemma ProviderIsShared(global: Option<MetaCache>)
    ensures var first := Provider(global);
            Provider(first.1) == first
  {
  }
}
