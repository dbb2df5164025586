/** The persisted ledger (state_manager.py): NAV history, positions, funding
    history, rebalance events, and the commission and funding-payment records,
    loaded from and saved to state.json. The file itself is an input: the
    parsed document, or None when it is missing or not valid JSON. Record
    fields are kept as the JSON values they were loaded as, since the record
    classes do not convert them. */
module StateManager {
  import opened Util
  import opened Json
  import ConfigManager

  datatype NavRecord = NavRecord(date: JsonValue, nav: JsonValue)

  datatype CommissionRecord = CommissionRecord(
    date: JsonValue, symbol: JsonValue, side: JsonValue, size: JsonValue, price: JsonValue,
    commission: JsonValue, commissionToken: JsonValue, commissionUsd: JsonValue, oid: JsonValue,
    navAfterCommission: JsonValue)

  datatype FundingRecord = FundingRecord(time: JsonValue, coin: JsonValue, funding: JsonValue,
                                         fundingUsd: JsonValue, endTime: JsonValue)

  /** The manager's attributes. `positions` and `fundingHistory` hold whatever
      the file held (normally a dict of sizes and a dict of lists). */
  datatype Ledger = Ledger(
    navHistory: seq<NavRecord>,
    positions: JsonValue,
    fundingHistory: JsonValue,
    rebalanceEvents: JsonValue,
    commissions: seq<CommissionRecord>,
    fundingPaid: seq<FundingRecord>)

  // ---------------------------------------------------------------------
  // Initial state.

  /** The strings of a list, or None if any item is not a string. */
  function Strings(items: seq<JsonValue>): (r: Option<seq<string>>)
    ensures r.Some? <==> forall i :: 0 <= i < |items| ==> items[i].JStr?
    ensures r.Some? ==> |r.value| == |items| && forall i :: 0 <= i < |items| ==> items[i] == JStr(r.value[i])
  {
    if |items| == 0 then Some([])
    else match (Strings(items[..|items| - 1]), items[|items| - 1])
      case (Some(p), JStr(s)) => Some(p + [s])
      case _ => None
  }

  /** `['BTC'] + config.get('shorts', [])`; None when that raises (shorts not a
      list) or a symbol is not a string. */
  function InitSymbols(config: map<string, JsonValue>): (r: Option<seq<string>>)
    ensures r.Some? ==> |r.value| >= 1 && r.value[0] == Core
    ensures "shorts" !in config ==> r == Some([Core])
    ensures var shorts := Get(config, "shorts", JList([]));
            && (r.Some? <==> shorts.JList? && forall i :: 0 <= i < |shorts.items| ==> shorts.items[i].JStr?)
            && (r.Some? ==> |r.value| == 1 + |shorts.items|
                            && forall i :: 0 <= i < |shorts.items| ==> shorts.items[i] == JStr(r.value[i + 1]))
  {
    assert Strings([]) == Some([]) && [Core] + [] == [Core];
    match Get(config, "shorts", JList([]))
    case JList(items) => (match Strings(items) case Some(s) => Some([Core] + s) case None => None)
    case _ => None
  }

  function ZeroPositions(symbols: seq<string>): (r: JsonValue)
    ensures r.JObj? && r.fields.Keys == set s | s in symbols
    ensures forall s :: s in r.fields ==> r.fields[s] == JReal(0.0)
  {
    JObj(map s | s in symbols :: JReal(0.0))
  }

  function EmptyFunding(symbols: seq<string>): (r: JsonValue)
    ensures r.JObj? && r.fields.Keys == set s | s in symbols
    ensures forall s :: s in r.fields ==> r.fields[s] == JList([])
  {
    JObj(map s | s in symbols :: JList([]))
  }

  /** `_initialize_empty_state`: zero positions and empty funding lists for
      BTC and every configured short, and empty histories. */
  function EmptyState(config: map<string, JsonValue>): (r: Option<Ledger>)
    ensures r.Some? <==> InitSymbols(config).Some?
    ensures r.Some? ==> var syms := set s | s in InitSymbols(config).value;
            && r.value.positions.JObj? && r.value.positions.fields.Keys == syms
            && (forall s :: s in syms ==> r.value.positions.fields[s] == JReal(0.0))
            && r.value.fundingHistory.JObj? && r.value.fundingHistory.fields.Keys == syms
            && (forall s :: s in syms ==> r.value.fundingHistory.fields[s] == JList([]))
            && r.value.navHistory == [] && r.value.commissions == [] && r.value.fundingPaid == []
            && r.value.rebalanceEvents == JList([])
  {
    match InitSymbols(config)
    case None => None
    case Some(symbols) => Some(Ledger([], ZeroPositions(symbols), EmptyFunding(symbols), JList([]), [], []))
  }

  /** The ledger is initialised for the same symbols the configuration
      manager lists: where initialisation succeeds, `all_symbols` succeeds
      too and names the same symbols, and where `all_symbols` raises, so
      does initialisation. */
  lemma InitSymbolsAreAllSymbols(m: ConfigManager.Manager)
    ensures ConfigManager.AllSymbols(m).None? ==> InitSymbols(m.config).None?
    ensures InitSymbols(m.config).Some? ==>
              && ConfigManager.AllSymbols(m).Some?
              && |ConfigManager.AllSymbols(m).value| == |InitSymbols(m.config).value|
              && forall i :: 0 <= i < |InitSymbols(m.config).value| ==>
                   ConfigManager.AllSymbols(m).value[i] == JStr(InitSymbols(m.config).value[i])
  {
    assert ConfigManager.Read(m, ConfigManager.Shorts) == Get(m.config, "shorts", JList([]));
    if InitSymbols(m.config).Some? {
      var items := Get(m.config, "shorts", JList([])).items;
      var all := ConfigManager.AllSymbols(m).value;
      forall i | 0 <= i < |InitSymbols(m.config).value|
        ensures all[i] == JStr(InitSymbols(m.config).value[i])
      {
        if i > 0 {
          assert all[i] == all[1..][i - 1] == items[i - 1];
        }
      }
    }
  }

  // ---------------------------------------------------------------------
  // Loading records.

  /** `NavRecord(date=record['date'], nav=record['nav'])`; a missing key raises. */
  function NavStep(record: map<string, JsonValue>): (r: Option<Option<NavRecord>>)
    ensures r.Some? <==> "date" in record && "nav" in record
    ensures r.Some? ==> r.value == Some(NavRecord(record["date"], record["nav"]))
  {
    if "date" in record && "nav" in record then Some(Some(NavRecord(record["date"], record["nav"]))) else None
  }

  const CommissionRequired: set<string> := {"date", "symbol", "side", "size", "price"}
  const CommissionOptional: set<string> := {"commission", "commission_token", "commission_usd", "oid", "nav_after_commission"}

  /** The loader's back-filling: a missing `nav_after_commission` becomes 0.0
      and every other missing optional field None. */
  function CommissionDefaults(f: map<string, JsonValue>): (g: map<string, JsonValue>)
    ensures g.Keys == f.Keys + CommissionOptional
    ensures forall k :: k in f ==> g[k] == f[k]
    ensures forall k :: k in CommissionOptional && k !in f ==> g[k] == (if k == "nav_after_commission" then JReal(0.0) else JNull)
  {
    map k | k in f.Keys + CommissionOptional :: if k in f then f[k] else if k == "nav_after_commission" then JReal(0.0) else JNull
  }

  /** `CommissionRecord(**record)` after back-filling: it raises (and the
      record is skipped) unless the record is a dict holding every required
      field and no field the class does not declare. */
  function CommissionOf(v: JsonValue): (r: Option<CommissionRecord>)
    ensures r.Some? <==> v.JObj? && CommissionRequired <= v.fields.Keys
                         && v.fields.Keys <= CommissionRequired + CommissionOptional
    ensures r.Some? ==> var f := v.fields;
            && r.value.date == f["date"] && r.value.symbol == f["symbol"] && r.value.side == f["side"]
            && r.value.size == f["size"] && r.value.price == f["price"]
            && r.value.commission == Get(f, "commission", JNull)
            && r.value.commissionToken == Get(f, "commission_token", JNull)
            && r.value.commissionUsd == Get(f, "commission_usd", JNull)
            && r.value.oid == Get(f, "oid", JNull)
            && r.value.navAfterCommission == Get(f, "nav_after_commission", JReal(0.0))
  {
    match v
    case JObj(f) =>
      if CommissionRequired <= f.Keys && f.Keys <= CommissionRequired + CommissionOptional then
        var g := CommissionDefaults(f);
        Some(CommissionRecord(g["date"], g["symbol"], g["side"], g["size"], g["price"], g["commission"],
                              g["commission_token"], g["commission_usd"], g["oid"], g["nav_after_commission"]))
      else None
    case _ => None
  }

  const FundingRequired: set<string> := {"time", "coin", "funding"}
  const FundingOptional: set<string> := {"funding_usd", "endTime"}

  /** A missing `funding_usd` becomes None and a missing `endTime` takes the
      record's `time` (0 when that is missing too). */
  function FundingDefaults(f: map<string, JsonValue>): (g: map<string, JsonValue>)
    ensures g.Keys == f.Keys + FundingOptional
    ensures forall k :: k in f ==> g[k] == f[k]
    ensures "funding_usd" !in f ==> g["funding_usd"] == JNull
    ensures "endTime" !in f ==> g["endTime"] == Get(f, "time", JInt(0))
  {
    map k | k in f.Keys + FundingOptional :: if k in f then f[k] else if k == "endTime" then Get(f, "time", JInt(0)) else JNull
  }

  /** `FundingRecord(**record)` after back-filling. */
  function FundingOf(v: JsonValue): (r: Option<FundingRecord>)
    ensures r.Some? <==> v.JObj? && FundingRequired <= v.fields.Keys && v.fields.Keys <= FundingRequired + FundingOptional
    ensures r.Some? ==> var f := v.fields;
            && r.value.time == f["time"] && r.value.coin == f["coin"] && r.value.funding == f["funding"]
            && r.value.fundingUsd == Get(f, "funding_usd", JNull)
            && r.value.endTime == Get(f, "endTime", f["time"])
  {
    match v
    case JObj(f) =>
      if FundingRequired <= f.Keys && f.Keys <= FundingRequired + FundingOptional then
        var g := FundingDefaults(f);
        Some(FundingRecord(g["time"], g["coin"], g["funding"], g["funding_usd"], g["endTime"]))
      else None
    case _ => None
  }

  /** A record the loader cannot build is skipped, not raised. */
  function CommissionStep(v: JsonValue): Option<Option<CommissionRecord>>
  {
    Some(CommissionOf(v))
  }

  function FundingStep(v: JsonValue): Option<Option<FundingRecord>>
  {
    Some(FundingOf(v))
  }

  /** The items `for record in v` meets in the record loops: a list's items;
      a dict or a string yields only strings, which the loop skips one by
      one; anything else is not iterable and raises (None). */
  function RecordItems(v: JsonValue): (r: Option<seq<JsonValue>>)
    ensures v.JList? ==> r == Some(v.items)
    ensures v.JObj? || v.JStr? ==> r == Some([])
  {
    match v
    case JList(items) => Some(items)
    case JObj(_) => Some([])
    case JStr(_) => Some([])
    case _ => None
  }

  /** The loaded records: all and only the buildable ones, in file order. */
  function LoadRecords<R(!new)>(step: JsonValue -> Option<Option<R>>, v: JsonValue): (r: Option<seq<R>>)
    requires forall x :: step(x).Some?
    ensures r.Some? <==> RecordItems(v).Some?
  {
    match RecordItems(v)
    case None => None
    case Some(items) => CollectSeq(step, items)
  }

  // ---------------------------------------------------------------------
  // load_state.

  /** The body of `load_state`'s try block on a parsed document; None when
      it raises. A falsy `positions` or `funding_history` is initialised for
      BTC and the configured shorts. */
  function LoadDocument(config: map<string, JsonValue>, doc: JsonValue): (r: Option<Ledger>)
    ensures r.Some? ==> doc.JObj?
    ensures doc.JObj? ==>
              var f := doc.fields;
              var navItems := DictItems(Get(f, "nav_history", JList([])));
              var initNeeded := !Truthy(Get(f, "positions", JObj(map[]))) || !Truthy(Get(f, "funding_history", JObj(map[])));
              && (r.Some? <==> && navItems.Some? && CollectSeq(NavStep, navItems.value).Some?
                               && (initNeeded ==> InitSymbols(config).Some?)
                               && LoadRecords(CommissionStep, Get(f, "commission_history", JList([]))).Some?
                               && LoadRecords(FundingStep, Get(f, "funding_paid_history", JList([]))).Some?)
              && (r.Some? ==> Some(r.value.navHistory) == CollectSeq(NavStep, navItems.value))
    ensures r.Some? ==> var f := doc.fields;
            && (Truthy(Get(f, "positions", JObj(map[]))) ==> r.value.positions == f["positions"])
            && (!Truthy(Get(f, "positions", JObj(map[]))) ==>
                  InitSymbols(config).Some? && r.value.positions == ZeroPositions(InitSymbols(config).value))
            && (Truthy(Get(f, "funding_history", JObj(map[]))) ==> r.value.fundingHistory == f["funding_history"])
            && (!Truthy(Get(f, "funding_history", JObj(map[]))) ==>
                  InitSymbols(config).Some? && r.value.fundingHistory == EmptyFunding(InitSymbols(config).value))
            && r.value.rebalanceEvents == Get(f, "rebalance_events", JList([]))
            && Some(r.value.commissions) == LoadRecords(CommissionStep, Get(f, "commission_history", JList([])))
            && Some(r.value.fundingPaid) == LoadRecords(FundingStep, Get(f, "funding_paid_history", JList([])))
  {
    match doc
    case JObj(f) =>
      (match DictItems(Get(f, "nav_history", JList([])))
       case None => None
       case Some(navItems) =>
         match CollectSeq(NavStep, navItems)
         case None => None
         case Some(navs) =>
           var positions := Get(f, "positions", JObj(map[]));
           var funding := Get(f, "funding_history", JObj(map[]));
           if (!Truthy(positions) || !Truthy(funding)) && InitSymbols(config).None? then None
           else
             var pos := if Truthy(positions) then positions else ZeroPositions(InitSymbols(config).value);
             var fund := if Truthy(funding) then funding else EmptyFunding(InitSymbols(config).value);
             match (LoadRecords(CommissionStep, Get(f, "commission_history", JList([]))),
                    LoadRecords(FundingStep, Get(f, "funding_paid_history", JList([]))))
             case (Some(cs), Some(fs)) =>
               Some(Ledger(navs, pos, fund, Get(f, "rebalance_events", JList([])), cs, fs))
             case _ => None)
    case _ => None
  }

  /** `load_state`: the ledger and the method's result. A missing or
      unparsable file, or a document the try block cannot load, gives the
      empty state and False; None when initialising the empty state raises
      too (the exception then leaves the constructor). */
  function LoadState(config: map<string, JsonValue>, file: Option<JsonValue>): (r: Option<(Ledger, bool)>)
    ensures file.Some? && LoadDocument(config, file.value).Some? ==> r == Some((LoadDocument(config, file.value).value, true))
    ensures file.None? || LoadDocument(config, file.value).None? ==>
              (r.Some? <==> EmptyState(config).Some?) && (r.Some? ==> r.value == (EmptyState(config).value, false))
  {
    if file.Some? && LoadDocument(config, file.value).Some? then Some((LoadDocument(config, file.value).value, true))
    else match EmptyState(config)
      case None => None
      case Some(l) => Some((l, false))
  }

  /** A malformed commission record is skipped: appending one to the file's
      list changes nothing in what is loaded. */
  lemma MalformedCommissionSkipped(config: map<string, JsonValue>, f: map<string, JsonValue>,
                                   items: seq<JsonValue>, bad: JsonValue)
    requires CommissionOf(bad).None?
    ensures var before := JObj(f["commission_history" := JList(items)]);
            var after := JObj(f["commission_history" := JList(items + [bad])]);
            LoadDocument(config, after) == LoadDocument(config, before)
  {
    MalformedRecordSkipped(items, bad);
    OtherFieldsAgree(f, JList(items), JList(items + [bad]));
  }

  /** Replacing the commission list leaves every other field as it was. */
  lemma OtherFieldsAgree(f: map<string, JsonValue>, a: JsonValue, b: JsonValue)
    ensures var fa := f["commission_history" := a]; var fb := f["commission_history" := b];
            && Get(fa, "nav_history", JList([])) == Get(fb, "nav_history", JList([]))
            && Get(fa, "positions", JObj(map[])) == Get(fb, "positions", JObj(map[]))
            && Get(fa, "funding_history", JObj(map[])) == Get(fb, "funding_history", JObj(map[]))
            && Get(fa, "rebalance_events", JList([])) == Get(fb, "rebalance_events", JList([]))
            && Get(fa, "funding_paid_history", JList([])) == Get(fb, "funding_paid_history", JList([]))
  {
  }

  lemma MalformedRecordSkipped(items: seq<JsonValue>, bad: JsonValue)
    requires CommissionOf(bad).None?
    ensures LoadRecords(CommissionStep, JList(items + [bad])) == LoadRecords(CommissionStep, JList(items))
  {
    assert (items + [bad])[..|items + [bad]| - 1] == items;
  }



  /** A loaded commission record lacking the optional fields carries None for
      each, and 0.0 as its NAV after commission. */
  lemma OldCommissionBackfilled(v: JsonValue)
    requires v.JObj? && v.fields.Keys == CommissionRequired
    ensures CommissionOf(v).Some?
    ensures var c := CommissionOf(v).value;
            c.commission == JNull && c.commissionToken == JNull && c.commissionUsd == JNull && c.oid == JNull
            && c.navAfterCommission == JReal(0.0)
  {
    assert "commission" !in v.fields && "commission_token" !in v.fields && "commission_usd" !in v.fields;
    assert "oid" !in v.fields && "nav_after_commission" !in v.fields;
  }

  /** A loaded funding record lacking `endTime` ends at its `time`. */
  lemma OldFundingEndsAtItsTime(v: JsonValue)
    requires v.JObj? && v.fields.Keys == FundingRequired
    ensures FundingOf(v).Some?
    ensures FundingOf(v).value.endTime == v.fields["time"] && FundingOf(v).value.fundingUsd == JNull
  {
    assert "endTime" !in v.fields && "funding_usd" !in v.fields;
  }

  // ---------------------------------------------------------------------
  // save_state.

  function SaveNav(n: NavRecord): JsonValue
  {
    JObj(map["date" := n.date, "nav" := n.nav])
  }

  function SaveCommission(c: CommissionRecord): JsonValue
  {
    JObj(map["date" := c.date, "symbol" := c.symbol, "side" := c.side, "size" := c.size, "price" := c.price,
             "commission" := c.commission, "commission_token" := c.commissionToken,
             "commission_usd" := c.commissionUsd, "oid" := c.oid,
             "nav_after_commission" := c.navAfterCommission])
  }

  function SaveFunding(r: FundingRecord): JsonValue
  {
    JObj(map["time" := r.time, "coin" := r.coin, "funding" := r.funding, "funding_usd" := r.fundingUsd,
             "endTime" := r.endTime])
  }

  function MapSeq<A, B>(f: A -> B, xs: seq<A>): (r: seq<B>)
    ensures |r| == |xs| && forall i :: 0 <= i < |xs| ==> r[i] == f(xs[i])
  {
    seq(|xs|, i requires 0 <= i < |xs| => f(xs[i]))
  }

  /** The document `save_state` writes (every record through `asdict`). */
  function SaveDocument(l: Ledger): JsonValue
  {
    JObj(map[
      "nav_history" := JList(MapSeq(SaveNav, l.navHistory)),
      "positions" := l.positions,
      "funding_history" := l.fundingHistory,
      "rebalance_events" := l.rebalanceEvents,
      "commission_history" := JList(MapSeq(SaveCommission, l.commissions)),
      "funding_paid_history" := JList(MapSeq(SaveFunding, l.fundingPaid))])
  }

  /** Building the records back from their saved images gives them back. */
  lemma {:induction false} CollectImages<A, B(!new)>(step: A -> Option<Option<B>>, save: B -> A, xs: seq<B>)
    requires forall x :: step(save(x)) == Some(Some(x))
    ensures CollectSeq(step, MapSeq(save, xs)) == Some(xs)
  {
    if |xs| > 0 {
      var p := xs[..|xs| - 1];
      assert MapSeq(save, xs)[..|xs| - 1] == MapSeq(save, p);
      CollectImages(step, save, p);
      assert xs == p + [xs[|xs| - 1]];
    }
  }

  lemma SavedRecordsReload()
    ensures forall c :: CommissionStep(SaveCommission(c)) == Some(Some(c))
    ensures forall r :: FundingStep(SaveFunding(r)) == Some(Some(r))
  {
    forall c ensures CommissionStep(SaveCommission(c)) == Some(Some(c)) {
      CommissionReloads(c);
    }
    forall r ensures FundingStep(SaveFunding(r)) == Some(Some(r)) {
      FundingReloads(r);
    }
  }

  /** A saved commission record carries exactly the declared fields. */
  lemma CommissionReloads(c: CommissionRecord)
    ensures CommissionOf(SaveCommission(c)) == Some(c)
  {
    SavedCommissionKeys(c);
  }

  lemma SavedCommissionKeys(c: CommissionRecord)
    ensures SaveCommission(c).JObj? && SaveCommission(c).fields.Keys == CommissionRequired + CommissionOptional
  {
  }

  /** A saved funding record carries exactly the declared fields. */
  lemma FundingReloads(r: FundingRecord)
    ensures FundingOf(SaveFunding(r)) == Some(r)
  {
    assert SaveFunding(r).fields.Keys == FundingRequired + FundingOptional;
  }

  /** Saving and loading again gives back the same ledger, provided its
      positions and funding history are non-empty (an empty one would be
      re-initialised on load). */
  lemma SaveLoadRoundTrip(config: map<string, JsonValue>, l: Ledger)
    requires Truthy(l.positions) && Truthy(l.fundingHistory)
    ensures LoadDocument(config, SaveDocument(l)) == Some(l)
  {
    SavedFields(l);
    NavReload(l);
    RecordsReload(l);
  }

  lemma SavedFields(l: Ledger)
    ensures var f := SaveDocument(l).fields;
            && Get(f, "nav_history", JList([])) == JList(MapSeq(SaveNav, l.navHistory))
            && Get(f, "positions", JObj(map[])) == l.positions
            && Get(f, "funding_history", JObj(map[])) == l.fundingHistory
            && Get(f, "rebalance_events", JList([])) == l.rebalanceEvents
            && Get(f, "commission_history", JList([])) == JList(MapSeq(SaveCommission, l.commissions))
            && Get(f, "funding_paid_history", JList([])) == JList(MapSeq(SaveFunding, l.fundingPaid))
  {
  }

  lemma NavReload(l: Ledger)
    ensures DictItems(JList(MapSeq(SaveNav, l.navHistory))).Some?
    ensures CollectSeq(NavStep, DictItems(JList(MapSeq(SaveNav, l.navHistory))).value) == Some(l.navHistory)
  {
    var navMaps := MapSeq((n: NavRecord) => SaveNav(n).fields, l.navHistory);
    var navDocs := MapSeq(SaveNav, l.navHistory);
    assert forall i :: 0 <= i < |navDocs| ==> navDocs[i] == JObj(navMaps[i]);
    assert DictItems(JList(navDocs)).value == navMaps;
    CollectImages(NavStep, (n: NavRecord) => SaveNav(n).fields, l.navHistory);
  }

  lemma RecordsReload(l: Ledger)
    ensures LoadRecords(CommissionStep, JList(MapSeq(SaveCommission, l.commissions))) == Some(l.commissions)
    ensures LoadRecords(FundingStep, JList(MapSeq(SaveFunding, l.fundingPaid))) == Some(l.fundingPaid)
  {
    SavedRecordsReload();
    CollectImages(CommissionStep, SaveCommission, l.commissions);
    CollectImages(FundingStep, SaveFunding, l.fundingPaid);
  }

  // ---------------------------------------------------------------------
  // Updates and queries.

  /** `add_nav_record`; the date string comes from the clock. */
  function AddNavRecord(l: Ledger, date: string, nav: real): (r: Ledger)
    ensures r.navHistory == l.navHistory + [NavRecord(JStr(date), JReal(nav))]
    ensures r.(navHistory := l.navHistory) == l
  {
    l.(navHistory := l.navHistory + [NavRecord(JStr(date), JReal(nav))])
  }

  /** `get_last_nav`: the newest record's NAV, else the config's `start_nav`
      (100.0 when absent). */
  function GetLastNav(l: Ledger, config: map<string, JsonValue>): (r: JsonValue)
    ensures l.navHistory == [] ==> r == Get(config, "start_nav", JReal(100.0))
    ensures l.navHistory != [] ==> r == l.navHistory[|l.navHistory| - 1].nav
  {
    if l.navHistory != [] then l.navHistory[|l.navHistory| - 1].nav else Get(config, "start_nav", JReal(100.0))
  }

  /** The NAV just recorded is the one reported next. */
  lemma LastNavIsLatestRecord(l: Ledger, config: map<string, JsonValue>, date: string, nav: real)
    ensures GetLastNav(AddNavRecord(l, date, nav), config) == JReal(nav)
  {
  }

  /** `update_positions`: `dict.update`, so the given sizes overwrite and the
      other entries stay; None when the stored positions are not a dict. */
  function UpdatePositions(l: Ledger, sizes: map<string, real>): (r: Option<Ledger>)
    ensures r.Some? <==> l.positions.JObj?
    ensures r.Some? ==> var p := r.value.positions;
            && p.JObj? && p.fields.Keys == l.positions.fields.Keys + sizes.Keys
            && (forall k :: k in sizes ==> p.fields[k] == JReal(sizes[k]))
            && (forall k :: k in l.positions.fields && k !in sizes ==> p.fields[k] == l.positions.fields[k])
            && r.value.(positions := l.positions) == l
  {
    match l.positions
    case JObj(f) => Some(l.(positions := JObj(f + map k | k in sizes :: JReal(sizes[k]))))
    case _ => None
  }

  /** `symbol in v` on a funding history that is not a dict: list membership
      or substring test; None (TypeError) for a number or bool. */
  function InNonDict(v: JsonValue, symbol: string): Option<bool>
  {
    match v
    case JList(items) => Some(JStr(symbol) in items)
    case JStr(s) => Some(exists i, j :: 0 <= i <= j <= |s| && s[i..j] == symbol)
    case _ => None
  }

  /** A symbol whose rate is appended: tracked, with a list to append to. */
  predicate Tracked(fields: map<string, JsonValue>, symbol: string)
  {
    symbol in fields && fields[symbol].JList?
  }

  /** `add_funding_rates`: each rate is appended to its symbol's list when
      the symbol is tracked; other symbols are ignored. None when it raises:
      a tracked symbol whose entry is not a list, or a funding history that is
      not a dict and "contains" a symbol (or is not iterable). */
  function AddFundingRates(l: Ledger, rates: map<string, real>): (r: Option<Ledger>)
    ensures l.fundingHistory.JObj? ==>
              (r.Some? <==> forall s :: s in rates && s in l.fundingHistory.fields ==> l.fundingHistory.fields[s].JList?)
    ensures r.Some? && l.fundingHistory.JObj? ==> var prev := l.fundingHistory.fields; var h := r.value.fundingHistory;
            && h.JObj? && h.fields.Keys == prev.Keys
            && (forall s :: s in prev && s in rates ==> h.fields[s] == JList(prev[s].items + [JReal(rates[s])]))
            && (forall s :: s in prev && s !in rates ==> h.fields[s] == prev[s])
            && r.value.(fundingHistory := l.fundingHistory) == l
    ensures r.Some? && !l.fundingHistory.JObj? ==> r.value == l
  {
    match l.fundingHistory
    case JObj(f) =>
      if forall s :: s in rates && s in f ==> f[s].JList? then
        Some(l.(fundingHistory := JObj(map s | s in f ::
                                        if s in rates then JList(f[s].items + [JReal(rates[s])]) else f[s])))
      else None
    case _ =>
      if forall s :: s in rates ==> InNonDict(l.fundingHistory, s) == Some(false) then Some(l) else None
  }

  /** Rates for untracked symbols are dropped: the tracked set never grows. */
  lemma UntrackedRatesIgnored(l: Ledger, rates: map<string, real>, s: string)
    requires l.fundingHistory.JObj? && AddFundingRates(l, rates).Some?
    requires s in rates && s !in l.fundingHistory.fields
    ensures s !in AddFundingRates(l, rates).value.fundingHistory.fields
  {
  }

  /** `get_open_positions`: the entries whose size is above dust, unchanged;
      None when the positions are not a dict or a size is not a number. */
  function GetOpenPositions(l: Ledger): (r: Option<map<string, JsonValue>>)
    ensures r.Some? <==> l.positions.JObj? && forall k :: k in l.positions.fields ==> AsNumber(l.positions.fields[k]).Some?
    ensures r.Some? ==> forall k :: k in r.value <==>
                          k in l.positions.fields && IsOpen(AsNumber(l.positions.fields[k]).value)
    ensures r.Some? ==> forall k :: k in r.value ==> r.value[k] == l.positions.fields[k]
  {
    match l.positions
    case JObj(f) =>
      if forall k :: k in f ==> AsNumber(f[k]).Some? then
        Some(map k | k in f && IsOpen(AsNumber(f[k]).value) :: f[k])
      else None
    case _ => None
  }

  /** Positions just set by `update_positions` are open iff above dust. */
  lemma UpdatedPositionOpenIffAboveDust(l: Ledger, sizes: map<string, real>, k: string)
    requires l.positions.JObj? && (forall j :: j in l.positions.fields ==> AsNumber(l.positions.fields[j]).Some?)
    requires k in sizes
    ensures var u := UpdatePositions(l, sizes).value;
            GetOpenPositions(u).Some? && (k in GetOpenPositions(u).value <==> IsOpen(sizes[k]))
  {
    var u := UpdatePositions(l, sizes).value;
    assert forall j :: j in u.positions.fields ==> AsNumber(u.positions.fields[j]).Some?;
  }

  /** The end times as numbers; None when one is not a number (the model does
      not compare strings with `max`). */
  function EndTimes(records: seq<FundingRecord>): (r: Option<seq<real>>)
    ensures r.Some? <==> forall i :: 0 <= i < |records| ==> AsNumber(records[i].endTime).Some?
    ensures r.Some? ==> |r.value| == |records| && forall i :: 0 <= i < |records| ==> r.value[i] == AsNumber(records[i].endTime).value
  {
    if forall i :: 0 <= i < |records| ==> AsNumber(records[i].endTime).Some? then
      Some(seq(|records|, i requires 0 <= i < |records| && AsNumber(records[i].endTime).Some? => AsNumber(records[i].endTime).value))
    else None
  }

  function MaxOf(xs: seq<real>): (m: real)
    requires |xs| > 0
    ensures forall i :: 0 <= i < |xs| ==> xs[i] <= m
    ensures exists i :: 0 <= i < |xs| && xs[i] == m
  {
    if |xs| == 1 then xs[0]
    else
      var rest := MaxOf(xs[..|xs| - 1]);
      var last := xs[|xs| - 1];
      assert forall i :: 0 <= i < |xs| - 1 ==> xs[..|xs| - 1][i] == xs[i];
      if last > rest then last else rest
  }

  /** `get_last_funding_time`: 0 with no records, else the latest end time. */
  function GetLastFundingTime(l: Ledger): (r: Option<real>)
    ensures l.fundingPaid == [] ==> r == Some(0.0)
    ensures l.fundingPaid != [] ==> (r.Some? <==> EndTimes(l.fundingPaid).Some?)
    ensures l.fundingPaid != [] && r.Some? ==>
              && (forall i :: 0 <= i < |l.fundingPaid| ==> AsNumber(l.fundingPaid[i].endTime).value <= r.value)
              && (exists i :: 0 <= i < |l.fundingPaid| && AsNumber(l.fundingPaid[i].endTime) == Some(r.value))
  {
    if l.fundingPaid == [] then Some(0.0)
    else match EndTimes(l.fundingPaid)
      case None => None
      case Some(ts) => Some(MaxOf(ts))
  }

  /** One step of a total loop: a truthy amount is added (None when it is not
      a number, since `float + x` raises); None, 0 and False are skipped. */
  function AddIfTruthy(total: Option<real>, v: JsonValue): (r: Option<real>)
    ensures !Truthy(v) ==> r == total
    ensures Truthy(v) && total.Some? && AsNumber(v).Some? ==> r == Some(total.value + AsNumber(v).value)
  {
    match total
    case None => None
    case Some(t) => if !Truthy(v) then total else match AsNumber(v) case Some(x) => Some(t + x) case None => None
  }

  function UsdSum(amounts: seq<JsonValue>): (r: Option<real>)
  {
    if |amounts| == 0 then Some(0.0) else AddIfTruthy(UsdSum(amounts[..|amounts| - 1]), amounts[|amounts| - 1])
  }

  /** `get_total_commission_usd`: the sum of the records' USD amounts, None,
      0 and False counting as nothing; it raises (None) iff some record holds
      a truthy amount that is not a number. */
  function TotalCommissionUsd(l: Ledger): (r: Option<real>)
    ensures r.None? <==> exists c :: c in l.commissions && Truthy(c.commissionUsd) && AsNumber(c.commissionUsd).None?
    ensures r.Some? ==> r.value == AmountSum(MapSeq((c: CommissionRecord) => c.commissionUsd, l.commissions))
  {
    var amounts := MapSeq((c: CommissionRecord) => c.commissionUsd, l.commissions);
    UsdSumRaises(amounts);
    assert forall c :: c in l.commissions <==> exists i :: 0 <= i < |l.commissions| && l.commissions[i] == c;
    if UsdSum(amounts).Some? then UsdSumSkipsFalsy(amounts); UsdSum(amounts) else UsdSum(amounts)
  }

  /** `get_total_funding_usd`, read as `get_total_commission_usd` is. */
  function TotalFundingUsd(l: Ledger): (r: Option<real>)
    ensures r.None? <==> exists f :: f in l.fundingPaid && Truthy(f.fundingUsd) && AsNumber(f.fundingUsd).None?
    ensures r.Some? ==> r.value == AmountSum(MapSeq((f: FundingRecord) => f.fundingUsd, l.fundingPaid))
  {
    var amounts := MapSeq((f: FundingRecord) => f.fundingUsd, l.fundingPaid);
    UsdSumRaises(amounts);
    assert forall f :: f in l.fundingPaid <==> exists i :: 0 <= i < |l.fundingPaid| && l.fundingPaid[i] == f;
    if UsdSum(amounts).Some? then UsdSumSkipsFalsy(amounts); UsdSum(amounts) else UsdSum(amounts)
  }

  /** The loop raises exactly when some truthy amount is not a number. */
  lemma {:induction false} UsdSumRaises(amounts: seq<JsonValue>)
    ensures UsdSum(amounts).None? <==>
              exists i :: 0 <= i < |amounts| && Truthy(amounts[i]) && AsNumber(amounts[i]).None?
  {
    if |amounts| > 0 {
      var p := amounts[..|amounts| - 1];
      UsdSumRaises(p);
      assert forall i :: 0 <= i < |p| ==> p[i] == amounts[i];
    }
  }

  /** The numeric reading of an amount for the totals: falsy counts 0. */
  function Amount(v: JsonValue): real
  {
    if Truthy(v) && AsNumber(v).Some? then AsNumber(v).value else 0.0
  }

  function AmountSum(amounts: seq<JsonValue>): real
  {
    if |amounts| == 0 then 0.0 else AmountSum(amounts[..|amounts| - 1]) + Amount(amounts[|amounts| - 1])
  }

  /** When every truthy amount is a number, the total is the sum of the
      amounts with None, 0 and False counted as nothing. */
  lemma {:induction false} UsdSumSkipsFalsy(amounts: seq<JsonValue>)
    requires forall i :: 0 <= i < |amounts| && Truthy(amounts[i]) ==> AsNumber(amounts[i]).Some?
    ensures UsdSum(amounts) == Some(AmountSum(amounts))
  {
    if |amounts| > 0 {
      UsdSumSkipsFalsy(amounts[..|amounts| - 1]);
    }
  }

  /** A record with no USD amount leaves the commission total unchanged. */
  lemma NullCommissionNotCounted(amounts: seq<JsonValue>)
    ensures UsdSum(amounts + [JNull]) == UsdSum(amounts)
    ensures UsdSum(amounts + [JInt(0)]) == UsdSum(amounts)
  {
    assert (amounts + [JNull])[..|amounts|] == amounts;
    assert (amounts + [JInt(0)])[..|amounts|] == amounts;
  }
}
