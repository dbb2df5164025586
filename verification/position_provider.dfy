/** The position provider (position_provider.py): reads the venue's
    `user_state` document into a symbol-to-size map (cached for five seconds),
    a list of open-position details, and an account summary. The document and
    the clock are inputs; a call that raises reads as None. The record readers
    here are shared with the risk manager, which parses the same document. */
module PositionProvider {
  import opened Util
  import opened Json

  /** Seconds a fetched position map stays fresh. */
  const PositionTtl: real := 5.0

  /** The reply of `info.user_state(address)`; None when the call raised (or
      returned something without `.get`). */
  type UserState = Option<map<string, JsonValue>>

  /** The `position` objects of `assetPositions`, in order. None when reading
      them raises: a record or its `position` is not an object, or
      `assetPositions` cannot be iterated as such. */
  function PositionInfos(state: UserState): (r: Option<seq<map<string, JsonValue>>>)
    ensures state.None? ==> r.None?
    ensures state.Some? && "assetPositions" !in state.value ==> r == Some([])
    ensures state.Some? ==>
              var items := DictItems(Get(state.value, "assetPositions", JList([])));
              && (r.Some? <==> items.Some? && forall i :: 0 <= i < |items.value| ==> PositionOf(items.value[i]).JObj?)
              && (r.Some? ==> |r.value| == |items.value|
                              && forall i :: 0 <= i < |items.value| ==> PositionOf(items.value[i]) == JObj(r.value[i]))
  {
    match state
    case None => None
    case Some(doc) =>
      match DictItems(Get(doc, "assetPositions", JList([])))
      case None => None
      case Some(ps) =>
        if |ps| == 0 then Some([])
        else if forall i :: 0 <= i < |ps| ==> PositionOf(ps[i]).JObj? then
          Some(seq(|ps|, i requires 0 <= i < |ps| => PositionOf(ps[i]).fields))
        else None
  }

  /** `pos.get('position', {})`. */
  function PositionOf(item: map<string, JsonValue>): JsonValue
  {
    Get(item, "position", JObj(map[]))
  }

  /** The record's `coin`, when it is a non-empty string. */
  function CoinOf(info: map<string, JsonValue>): (r: Option<string>)
    ensures r.Some? ==> "coin" in info && Truthy(info["coin"]) && info["coin"] == JStr(r.value)
    ensures r.None? && "coin" in info ==> !info["coin"].JStr? || info["coin"].s == ""
  {
    match Get(info, "coin", JNull)
    case JStr(s) => if s != "" then Some(s) else None
    case _ => None
  }

  /** `if coin:` in the source. */
  predicate HasCoin(info: map<string, JsonValue>)
  {
    Truthy(Get(info, "coin", JNull))
  }

  /** `float(info.get(key, 0.0))`. */
  function Number(info: map<string, JsonValue>, key: string): (r: Option<real>)
    ensures key !in info ==> r == Some(0.0)
  {
    ToFloat(Get(info, key, JReal(0.0)))
  }

  /** The leverage of a position: a truthy object gives `float(value)`
      (default 1.0), any other truthy value gives `float(v)`, and a falsy or
      missing one counts as 1.0x. */
  function ParseLeverage(v: JsonValue): (r: Option<real>)
    ensures !Truthy(v) ==> r == Some(1.0)
    ensures Truthy(v) && v.JObj? && "value" !in v.fields ==> r == Some(1.0)
    ensures Truthy(v) && !v.JObj? ==> r == ToFloat(v)
  {
    if !Truthy(v) then Some(1.0)
    else if v.JObj? then ToFloat(Get(v.fields, "value", JReal(1.0)))
    else ToFloat(v)
  }

  /** One pass of `get_positions`' loop: a record with a coin converts `szi`
      (default 0.0); only a string coin can key the map. */
  function SizeRecord(info: map<string, JsonValue>): (r: Option<Option<(string, real)>>)
    ensures !HasCoin(info) ==> r == Some(None)
    ensures HasCoin(info) && Number(info, "szi").None? ==> r.None?
    ensures r.Some? && r.value.Some? ==> CoinOf(info) == Some(r.value.value.0)
                                         && Number(info, "szi") == Some(r.value.value.1)
    ensures r.Some? && r.value.None? ==> CoinOf(info).None?
  {
    if !HasCoin(info) then Some(None)
    else match Number(info, "szi")
      case None => None
      case Some(sz) =>
        match CoinOf(info)
        case Some(c) => Some(Some((c, sz)))
        case None => Some(None)
  }

  /** The map a fetch produces; None when the fetch raises. */
  function FetchPositions(state: UserState): Option<map<string, real>>
  {
    match PositionInfos(state)
    case None => None
    case Some(infos) => Collect(SizeRecord, infos)
  }

  /** A fetched map has one key per named coin, closed positions included
      (no size filter), and each coin maps to the `szi` of its last record. */
  lemma FetchedPositions(infos: seq<map<string, JsonValue>>, i: int)
    requires Collect(SizeRecord, infos).Some?
    requires 0 <= i < |infos| && CoinOf(infos[i]).Some?
    requires forall j :: i < j < |infos| ==> CoinOf(infos[j]) != CoinOf(infos[i])
    ensures CoinOf(infos[i]).value in Collect(SizeRecord, infos).value
    ensures Some(Collect(SizeRecord, infos).value[CoinOf(infos[i]).value]) == Number(infos[i], "szi")
  {
    assert SizeRecord(infos[i]).Some?;
    forall j | i < j < |infos| ensures !Stores(SizeRecord, infos[j], CoinOf(infos[i]).value) {
    }
    CollectLastWins(SizeRecord, infos, i);
  }

  /** Every key of a fetched map is the coin of some record. */
  lemma FetchedKeysAreCoins(infos: seq<map<string, JsonValue>>)
    requires Collect(SizeRecord, infos).Some?
    ensures forall c :: c in Collect(SizeRecord, infos).value <==>
              exists i :: 0 <= i < |infos| && CoinOf(infos[i]) == Some(c)
  {
    CollectKeys(SizeRecord, infos);
    forall c | exists i :: 0 <= i < |infos| && CoinOf(infos[i]) == Some(c)
      ensures StoredBySome(SizeRecord, infos, c)
    {
      var i :| 0 <= i < |infos| && CoinOf(infos[i]) == Some(c);
      assert SizeRecord(infos[i]).Some?;
      assert Stores(SizeRecord, infos[i], c);
    }
  }

  /** The provider's `_position_cache` and `_cache_timestamp`. */
  datatype PositionCache = PositionCache(positions: map<string, real>, stamp: real)

  /** `_is_cache_valid() and self._position_cache`. */
  predicate PositionCacheServes(c: PositionCache, now: real)
  {
    now - c.stamp < PositionTtl && c.positions != map[]
  }

  /** Python's `get_positions`: the map returned and the provider's new cache. */
  function GetPositions(c: PositionCache, now: real, state: UserState): (out: (map<string, real>, PositionCache))
    ensures PositionCacheServes(c, now) ==> out == (c.positions, c)
    ensures !PositionCacheServes(c, now) && FetchPositions(state).None? ==> out == (map[], c)
    ensures !PositionCacheServes(c, now) && FetchPositions(state).Some? ==>
              out.0 == FetchPositions(state).value && out.1 == PositionCache(out.0, now)
  {
    if PositionCacheServes(c, now) then (c.positions, c)
    else match FetchPositions(state)
      case None => (map[], c)
      case Some(m) => (m, PositionCache(m, now))
  }

  /** `invalidate_cache`. */
  function InvalidatePositions(c: PositionCache): (r: PositionCache)
    ensures r.positions == map[]
  {
    PositionCache(map[], 0.0)
  }

  /** After invalidation the next call fetches, whatever the old cache held
      and whatever the clock says. */
  lemma InvalidateForcesFetch(c: PositionCache, now: real, state: UserState)
    ensures GetPositions(InvalidatePositions(c), now, state).0 ==
              (if FetchPositions(state).Some? then FetchPositions(state).value else map[])
  {
  }

  /** A non-empty map fetched at `now` is served unchanged to every call
      within the TTL, whatever the venue would say then. */
  lemma FetchedPositionsServedWithinTtl(c: PositionCache, now: real, state: UserState, later: real, state2: UserState)
    requires !PositionCacheServes(c, now)
    requires FetchPositions(state).Some? && FetchPositions(state).value != map[]
    requires now <= later < now + PositionTtl
    ensures var first := GetPositions(c, now, state);
            GetPositions(first.1, later, state2) == first
  {
  }

  /** One entry of `get_position_details`. */
  datatype PositionInfo = PositionInfo(symbol: string, size: real, unrealizedPnl: real, marginUsed: real, leverage: real)

  /** The four numbers of a record convert. */
  predicate DetailsConvert(info: map<string, JsonValue>)
  {
    && Number(info, "szi").Some? && Number(info, "unrealizedPnl").Some?
    && Number(info, "marginUsed").Some? && ParseLeverage(Get(info, "leverage", JNull)).Some?
  }

  /** One pass of `get_position_details`' loop: a record with a coin converts
      all four numbers (any failure raises); only open positions are listed. */
  function DetailRecord(info: map<string, JsonValue>): (r: Option<Option<PositionInfo>>)
    ensures !HasCoin(info) ==> r == Some(None)
    ensures r.Some? && r.value.Some? ==>
              var p := r.value.value;
              && CoinOf(info) == Some(p.symbol)
              && Number(info, "szi") == Some(p.size) && IsOpen(p.size)
              && Number(info, "unrealizedPnl") == Some(p.unrealizedPnl)
              && Number(info, "marginUsed") == Some(p.marginUsed)
              && ParseLeverage(Get(info, "leverage", JNull)) == Some(p.leverage)
    ensures HasCoin(info) && r == Some(None) ==> CoinOf(info).None? || (Number(info, "szi").Some? && !IsOpen(Number(info, "szi").value))
    ensures HasCoin(info) && !DetailsConvert(info) ==> r.None?
    ensures CoinOf(info).Some? && DetailsConvert(info) && IsOpen(Number(info, "szi").value) ==> r.Some? && r.value.Some?
  {
    if !HasCoin(info) then Some(None)
    else
      match (Number(info, "szi"), Number(info, "unrealizedPnl"), Number(info, "marginUsed"),
             ParseLeverage(Get(info, "leverage", JNull)))
      case (Some(size), Some(pnl), Some(margin), Some(lev)) =>
        if IsOpen(size) && CoinOf(info).Some? then Some(Some(PositionInfo(CoinOf(info).value, size, pnl, margin, lev)))
        else Some(None)
      case _ => None
  }

  /** Python's `get_position_details`: [] when anything raises; otherwise
      one entry per record with a coin and an open size, in record order
      (see `CollectSeqConcat`). */
  function GetPositionDetails(state: UserState): (r: seq<PositionInfo>)
    ensures forall p :: p in r ==> IsOpen(p.size)
    ensures PositionInfos(state).None? ==> r == []
    ensures PositionInfos(state).Some? ==>
              var infos := PositionInfos(state).value;
              && ((exists i :: 0 <= i < |infos| && DetailRecord(infos[i]).None?) ==> r == [])
              && ((forall i :: 0 <= i < |infos| ==> DetailRecord(infos[i]).Some?) ==>
                    forall p :: p in r <==> exists i :: 0 <= i < |infos| && DetailRecord(infos[i]) == Some(Some(p)))
  {
    match PositionInfos(state)
    case None => []
    case Some(infos) =>
      match CollectSeq(DetailRecord, infos)
      case None => []
      case Some(l) => l
  }

  /** The details and the size map agree: when both reads succeed, every open
      position of the map is listed with its size, and every listed symbol is a
      key of the map. */
  lemma DetailsAgreeWithPositions(state: UserState)
    requires FetchPositions(state).Some? && PositionInfos(state).Some?
    requires CollectSeq(DetailRecord, PositionInfos(state).value).Some?
    ensures forall p :: p in GetPositionDetails(state) ==> p.symbol in FetchPositions(state).value
    ensures forall c :: c in FetchPositions(state).value && IsOpen(FetchPositions(state).value[c]) ==>
              exists p :: p in GetPositionDetails(state) && p.symbol == c && p.size == FetchPositions(state).value[c]
  {
    var infos := PositionInfos(state).value;
    FetchedKeysAreCoins(infos);
    forall p | p in GetPositionDetails(state)
      ensures p.symbol in FetchPositions(state).value
    {
      var i :| 0 <= i < |infos| && DetailRecord(infos[i]) == Some(Some(p));
      assert CoinOf(infos[i]) == Some(p.symbol);
    }
    var sizes := FetchPositions(state).value;
    CollectValues(SizeRecord, infos);
    forall c | c in sizes && IsOpen(sizes[c])
      ensures exists p :: p in GetPositionDetails(state) && p.symbol == c && p.size == sizes[c]
    {
      assert StoredValue(SizeRecord, infos, c, sizes[c]);
      var i :| 0 <= i < |infos| && SizeRecord(infos[i]) == Some(Some((c, sizes[c])));
      assert DetailRecord(infos[i]).Some?;
      var p := DetailRecord(infos[i]).value.value;
      assert p in GetPositionDetails(state);
    }
  }

  /** The account summary as a record; None stands for the `{}`
      returned when reading it raises. */
  datatype AccountSummary = AccountSummary(accountValue: real, totalMarginUsed: real, totalRawUsd: real, withdrawable: real)

  /** The `marginSummary` object of the document (default `{}`). */
  function MarginSummary(state: UserState): (r: Option<map<string, JsonValue>>)
    ensures state.Some? && "marginSummary" !in state.value ==> r == Some(map[])
  {
    match state
    case None => None
    case Some(doc) =>
      match Get(doc, "marginSummary", JObj(map[]))
      case JObj(ms) => Some(ms)
      case _ => None
  }

  /** The four summary fields of a margin summary, each defaulting to 0.0. */
  function SummaryOf(ms: map<string, JsonValue>): (r: Option<AccountSummary>)
    ensures r.Some? <==> Number(ms, "accountValue").Some? && Number(ms, "totalMarginUsed").Some?
                         && Number(ms, "totalRawUsd").Some? && Number(ms, "withdrawable").Some?
    ensures r.Some? ==> Some(r.value.accountValue) == Number(ms, "accountValue")
                        && Some(r.value.totalMarginUsed) == Number(ms, "totalMarginUsed")
                        && Some(r.value.totalRawUsd) == Number(ms, "totalRawUsd")
                        && Some(r.value.withdrawable) == Number(ms, "withdrawable")
  {
    match (Number(ms, "accountValue"), Number(ms, "totalMarginUsed"),
           Number(ms, "totalRawUsd"), Number(ms, "withdrawable"))
    case (Some(a), Some(m), Some(u), Some(w)) => Some(AccountSummary(a, m, u, w))
    case _ => None
  }

  /** Python's `get_account_summary`: the four converted fields of
      `marginSummary` (each missing one reads 0.0); None for `{}`, which the
      source returns when the document, the summary or a field cannot be read. */
  function GetAccountSummary(state: UserState): (r: Option<AccountSummary>)
    ensures state.None? ==> r.None?
    ensures state.Some? ==>
              var ms := Get(state.value, "marginSummary", JObj(map[]));
              && (r.Some? <==> ms.JObj? && Number(ms.fields, "accountValue").Some? && Number(ms.fields, "totalMarginUsed").Some?
                               && Number(ms.fields, "totalRawUsd").Some? && Number(ms.fields, "withdrawable").Some?)
              && (r.Some? ==> Some(r.value.accountValue) == Number(ms.fields, "accountValue")
                              && Some(r.value.totalMarginUsed) == Number(ms.fields, "totalMarginUsed")
                              && Some(r.value.totalRawUsd) == Number(ms.fields, "totalRawUsd")
                              && Some(r.value.withdrawable) == Number(ms.fields, "withdrawable"))
  {
    match MarginSummary(state)
    case None => None
    case Some(ms) => SummaryOf(ms)
  }

  /** A document without `marginSummary` reads as an all-zero summary. */
  lemma MissingSummaryIsZero(doc: map<string, JsonValue>)
    requires "marginSummary" !in doc
    ensures GetAccountSummary(Some(doc)) == Some(AccountSummary(0.0, 0.0, 0.0, 0.0))
  {
  }
}
