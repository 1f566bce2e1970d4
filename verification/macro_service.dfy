/** The EODHD regional-indicator adapter (services/macro_service.py): for
    each selected region, a quote request per index symbol, each answer
    turned into an indicator row, and one context line per row.

    The HTTP call is a parameter `fetch` from the API token and a symbol to
    the outcome; the environment lookup `os.getenv(name, "")` and today's
    date are parameters as well. */
module MacroService {
  import opened Dicts
  import opened Models
  import DataSources

  /** One end-of-day record: its `close` and `date` fields, `None` when the
      key is absent. */
  datatype Record = Record(close: Option<real>, date: Option<string>)

  /** The decoded JSON body: a list of records, or anything else. */
  datatype QuoteBody = Records(records: seq<Record>) | OtherJson

  /** What one quote request can end in. */
  datatype QuoteFetch = Answered(body: QuoteBody) | RequestFailed(reason: string)

  const KeyVariable := "EODHD_API_KEY"
  const MissingKey := "API key de EODHD no configurada. Usa la variable EODHD_API_KEY en .env"
  const NoData := "No se encontraron datos macroeconómicos para las regiones seleccionadas."

  /** The index symbols quoted for each known region, in request order. */
  const SymbolsMap: Dict<string, seq<string>> := [
    ("asia", ["SPY.US", "FXI.US"]),
    ("australia", ["EWA.US"]),
    ("europe", ["VGK.US", "EWG.US"])
  ]

  /** The symbols of a region; an unknown region gets the S&P 500 ETF. */
  function Symbols(regionId: string): (symbols: seq<string>)
    ensures regionId !in Keys(SymbolsMap) ==> symbols == ["SPY.US"]
    ensures regionId in Keys(SymbolsMap) ==> exists i :: 0 <= i < |SymbolsMap| && SymbolsMap[i] == (regionId, symbols)
  {
    GetOr(SymbolsMap, regionId, ["SPY.US"])
  }

  /** `api_key or os.getenv("EODHD_API_KEY", "")`. */
  function EffectiveKey(apiKey: Option<string>, env: string -> string): (key: string)
    ensures apiKey.Some? && apiKey.value != "" ==> key == apiKey.value
    ensures apiKey.None? || apiKey.value == "" ==> key == env(KeyVariable)
  {
    ApiKey(apiKey, env, KeyVariable)
  }

  /** `record.get("close", 0)`: the price, or 0 when the key is absent. */
  function Close(r: Record): (price: real)
    ensures r.close.Some? ==> price == r.close.value
    ensures r.close.None? ==> price == 0.0
  {
    r.close.GetOr(0.0)
  }

  /** The percentage change, or 0 when the earlier price is not positive. */
  function ChangePct(current: real, previous: real): (pct: real)
    ensures previous <= 0.0 ==> pct == 0.0
    ensures previous > 0.0 ==> pct * previous == (current - previous) * 100.0
    ensures previous > 0.0 ==> (pct > 0.0 <==> current > previous)
  {
    if previous > 0.0 then (current - previous) / previous * 100.0 else 0.0
  }

  /** The signal of a percentage change: a move of more than one percent
      either way, or neutral. */
  function Signal(changePct: real): (signal: string)
    ensures signal == "Positive momentum" <==> changePct > 1.0
    ensures signal == "Negative pressure" <==> changePct < -1.0
    ensures signal == "Neutral" <==> -1.0 <= changePct <= 1.0
  {
    if changePct > 1.0 then "Positive momentum"
    else if changePct < -1.0 then "Negative pressure"
    else "Neutral"
  }

  /** The indicator row of a non-empty record list, newest first. The
      previous record is the second one, or the latest again when it is
      alone; prices are rounded to cents for the row but the signal uses the
      unrounded change. */
  function QuoteRow(symbol: string, records: seq<Record>, today: string, fmt: Formats): (row: MacroRow)
    requires |records| > 0
    ensures row.indicator == symbol + " Price" && row.units == "USD"
    ensures row.date == records[0].date.GetOr(today)
    ensures row.current == Some(fmt.round(Close(records[0]), 2))
    ensures |records| > 1 ==> row.previous == Some(fmt.round(Close(records[1]), 2))
    ensures |records| > 1 ==> row.signal == Signal(ChangePct(Close(records[0]), Close(records[1])))
    ensures |records| == 1 ==> row.previous == row.current && row.signal == "Neutral"
  {
    var latest := records[0];
    var previous := if |records| > 1 then records[1] else latest;
    var pct := ChangePct(Close(latest), Close(previous));
    MacroRow(symbol + " Price", Some(fmt.round(Close(latest), 2)), Some(fmt.round(Close(previous), 2)),
             "USD", latest.date.GetOr(today), Signal(pct))
  }

  /** The warning of a failed quote request. */
  function FailureText(symbol: string, reason: string): (t: string)
    ensures "Error al obtener datos de EODHD para " + symbol <= t
  {
    "Error al obtener datos de EODHD para " + symbol + ": " + reason
  }

  /** What one symbol adds: a row, a warning, or nothing at all. */
  datatype SymbolResult = NewRow(row: MacroRow) | NewWarning(entry: Feedback) | NoRow

  /** The body of the symbol loop. */
  function SymbolStep(symbol: string, outcome: QuoteFetch, today: string, fmt: Formats): (s: SymbolResult)
    ensures s.NewWarning? <==> outcome.RequestFailed?
    ensures s.NewWarning? ==> s.entry == Feedback(Warning, FailureText(symbol, outcome.reason))
    ensures s.NewRow? <==> outcome.Answered? && outcome.body.Records? && |outcome.body.records| > 0
    ensures s.NewRow? ==> s.row == QuoteRow(symbol, outcome.body.records, today, fmt)
  {
    match outcome
    case RequestFailed(reason) => NewWarning(Feedback(Warning, FailureText(symbol, reason)))
    case Answered(Records(records)) =>
      if |records| > 0 then NewRow(QuoteRow(symbol, records, today, fmt)) else NoRow
    case Answered(OtherJson) => NoRow
  }

  /** A region's rows and warnings, each in symbol order. */
  datatype RegionData = RegionData(rows: seq<MacroRow>, warnings: seq<Feedback>)

  /** The symbols whose request failed, in order. */
  function FailedSymbols(key: string, symbols: seq<string>, fetch: (string, string) -> QuoteFetch): (failed: seq<string>)
    ensures |failed| <= |symbols|
    ensures forall s <- failed :: s in symbols && fetch(key, s).RequestFailed?
  {
    if |symbols| == 0 then []
    else (if fetch(key, symbols[0]).RequestFailed? then [symbols[0]] else []) + FailedSymbols(key, symbols[1..], fetch)
  }

  /** The inner loop over a region's symbols: one warning per failed
      request, at most one row per symbol, all the warnings at warning level. */
  function RegionPass(key: string, symbols: seq<string>, fetch: (string, string) -> QuoteFetch, today: string, fmt: Formats): (d: RegionData)
    ensures |d.warnings| == |FailedSymbols(key, symbols, fetch)|
    ensures |d.rows| + |d.warnings| <= |symbols|
    ensures forall w <- d.warnings :: w.level == Warning
    ensures (forall s <- symbols :: fetch(key, s).RequestFailed?) ==> d.rows == []
  {
    if |symbols| == 0 then RegionData([], [])
    else
      var rest := RegionPass(key, symbols[1..], fetch, today, fmt);
      assert forall s <- symbols[1..] :: s in symbols;
      match SymbolStep(symbols[0], fetch(key, symbols[0]), today, fmt)
      case NewRow(row) => RegionData([row] + rest.rows, rest.warnings)
      case NewWarning(entry) => RegionData(rest.rows, [entry] + rest.warnings)
      case NoRow => rest
  }

  /** What the region loop gathers: lines, feedback and the tables. */
  datatype Collected = Collected(lines: seq<string>, feedback: seq<Feedback>, tables: map<string, seq<MacroRow>>)

  /** The rows of a region, for the selected key: one per symbol of the
      region answered with a non-empty record list, in symbol order. */
  function RowsOf(key: string, regionId: string, fetch: (string, string) -> QuoteFetch, today: string, fmt: Formats): (rows: seq<MacroRow>)
    ensures rows == AnsweredRows(key, Symbols(regionId), fetch, today, fmt)
  {
    RegionPassContents(key, Symbols(regionId), fetch, today, fmt);
    RegionPass(key, Symbols(regionId), fetch, today, fmt).rows
  }

  /** The symbol was answered with a non-empty list of records. */
  predicate HasRecords(outcome: QuoteFetch)
  {
    outcome.Answered? && outcome.body.Records? && |outcome.body.records| > 0
  }

  /** The rows the symbols should give, read straight off the answers: the
      row of each symbol answered with records, in symbol order. */
  function AnsweredRows(key: string, symbols: seq<string>, fetch: (string, string) -> QuoteFetch, today: string, fmt: Formats): seq<MacroRow>
  {
    if |symbols| == 0 then []
    else
      var outcome := fetch(key, symbols[0]);
      (if HasRecords(outcome) then [QuoteRow(symbols[0], outcome.body.records, today, fmt)] else [])
      + AnsweredRows(key, symbols[1..], fetch, today, fmt)
  }

  /** The warnings the symbols should give: one per failed request, in
      symbol order, naming the symbol and the reason. */
  function FailureWarnings(key: string, symbols: seq<string>, fetch: (string, string) -> QuoteFetch): seq<Feedback>
  {
    if |symbols| == 0 then []
    else
      var outcome := fetch(key, symbols[0]);
      (if outcome.RequestFailed? then [Feedback(Warning, FailureText(symbols[0], outcome.reason))] else [])
      + FailureWarnings(key, symbols[1..], fetch)
  }

  /** The inner loop gives exactly the rows of the answered symbols and the
      warnings of the failed ones, each in symbol order. */
  lemma {:induction false} RegionPassContents(key: string, symbols: seq<string>, fetch: (string, string) -> QuoteFetch,
                                              today: string, fmt: Formats)
    ensures RegionPass(key, symbols, fetch, today, fmt).rows == AnsweredRows(key, symbols, fetch, today, fmt)
    ensures RegionPass(key, symbols, fetch, today, fmt).warnings == FailureWarnings(key, symbols, fetch)
  {
    if |symbols| > 0 {
      RegionPassContents(key, symbols[1..], fetch, today, fmt);
    }
  }

  /** Every row of the selection, tagged with its region, region by region. */
  function TaggedRows(key: string, selected: seq<string>, fetch: (string, string) -> QuoteFetch, today: string, fmt: Formats): seq<(string, MacroRow)>
  {
    if |selected| == 0 then []
    else Tag(selected[0], RowsOf(key, selected[0], fetch, today, fmt)) + TaggedRows(key, selected[1..], fetch, today, fmt)
  }

  /** The lines are one per row of the selection, ordered by selected
      region and then by symbol, each under its region's display label. */
  lemma {:induction false} CollectLines(key: string, selected: seq<string>, fetch: (string, string) -> QuoteFetch, today: string, fmt: Formats)
    ensures CollectRegions(key, selected, fetch, today, fmt).lines == DataSources.TaggedMacroLines(TaggedRows(key, selected, fetch, today, fmt), fmt)
  {
    if |selected| > 0 {
      CollectLines(key, selected[1..], fetch, today, fmt);
      var regionId := selected[0];
      var tagged := Tag(regionId, RowsOf(key, regionId, fetch, today, fmt));
      DataSources.TaggedMacroLinesAppend(tagged, TaggedRows(key, selected[1..], fetch, today, fmt), fmt);
      assert DataSources.TaggedMacroLines(tagged, fmt) == MacroLines(DataSources.RegionLabel(regionId), RowsOf(key, regionId, fetch, today, fmt), fmt);
    }
  }

  /** The region loop. A region with rows gets its table (a later
      occurrence of the same region replaces an earlier one) and one line
      per row under its display label; its warnings go to the feedback. */
  function CollectRegions(key: string, selected: seq<string>, fetch: (string, string) -> QuoteFetch, today: string, fmt: Formats): (c: Collected)
    ensures forall k :: k in c.tables <==> k in selected && |RowsOf(key, k, fetch, today, fmt)| > 0
    ensures forall k <- c.tables :: c.tables[k] == RowsOf(key, k, fetch, today, fmt)
    ensures |c.lines| == 0 <==> c.tables == map[]
    ensures forall f <- c.feedback :: f.level == Warning
  {
    if |selected| == 0 then Collected([], [], map[])
    else
      var regionId := selected[0];
      var d := RegionPass(key, Symbols(regionId), fetch, today, fmt);
      var rest := CollectRegions(key, selected[1..], fetch, today, fmt);
      var lines := MacroLines(DataSources.RegionLabel(regionId), d.rows, fmt);
      var tables := if |d.rows| > 0 then map[regionId := d.rows] + rest.tables else rest.tables;
      assert forall k :: k in selected <==> k == regionId || k in selected[1..];
      assert d.rows == RowsOf(key, regionId, fetch, today, fmt);
      assert forall k <- tables :: tables[k] == RowsOf(key, k, fetch, today, fmt) by {
        forall k <- tables
          ensures tables[k] == RowsOf(key, k, fetch, today, fmt)
        {
          if k !in rest.tables {
            assert k == regionId;
          }
        }
      }
      Collected(lines + rest.lines, d.warnings + rest.feedback, tables)
  }

  /** Every failed request of the selection, region by region. */
  function FailedRequests(key: string, selected: seq<string>, fetch: (string, string) -> QuoteFetch): seq<string>
  {
    if |selected| == 0 then []
    else FailedSymbols(key, Symbols(selected[0]), fetch) + FailedRequests(key, selected[1..], fetch)
  }

  /** Every row of the selection, region by region. */
  function AllRows(key: string, selected: seq<string>, fetch: (string, string) -> QuoteFetch, today: string, fmt: Formats): seq<MacroRow>
  {
    if |selected| == 0 then []
    else RowsOf(key, selected[0], fetch, today, fmt) + AllRows(key, selected[1..], fetch, today, fmt)
  }

  /** One line per row and one warning per failed request. */
  lemma {:induction false} CollectCounts(key: string, selected: seq<string>, fetch: (string, string) -> QuoteFetch, today: string, fmt: Formats)
    ensures |CollectRegions(key, selected, fetch, today, fmt).lines| == |AllRows(key, selected, fetch, today, fmt)|
    ensures |CollectRegions(key, selected, fetch, today, fmt).feedback| == |FailedRequests(key, selected, fetch)|
  {
    if |selected| > 0 {
      CollectCounts(key, selected[1..], fetch, today, fmt);
    }
  }

  /** `fetch_eodhd_macro(regions, api_key)`. */
  function FetchEodhdMacro(regions: Option<seq<string>>, apiKey: Option<string>, env: string -> string,
                           fetch: (string, string) -> QuoteFetch, today: string, fmt: Formats): (r: SourceResult)
    ensures EffectiveKey(apiKey, env) == "" ==> r == NewSourceResult().AddFeedback(Warning, MissingKey)
    ensures r.timeseries == map[]
  {
    var key := EffectiveKey(apiKey, env);
    if key == "" then NewSourceResult().AddFeedback(Warning, MissingKey)
    else
      var c := CollectRegions(key, DataSources.SelectedRegions(regions), fetch, today, fmt);
      var extra := if c.tables != map[] then map["macro_tables" := MacroTables(c.tables)] else map[];
      var feedback := c.feedback + (if |c.lines| == 0 then [Feedback(Info, NoData)] else []);
      SourceResult(c.lines, feedback, map[], extra)
  }

  /** `fetch_regional_macro(regions, api_key)`: the EODHD adapter, unchanged. */
  function FetchRegionalMacro(regions: Option<seq<string>>, apiKey: Option<string>, env: string -> string,
                              fetch: (string, string) -> QuoteFetch, today: string, fmt: Formats): (r: SourceResult)
    ensures r == FetchEodhdMacro(regions, apiKey, env, fetch, today, fmt)
    ensures EffectiveKey(apiKey, env) == "" ==> OnlyFeedback(r, Warning)
  {
    FetchEodhdMacro(regions, apiKey, env, fetch, today, fmt)
  }

  // ---------------------------------------------------------------------
  // Properties of the adapter

  /** With a key, `extra` holds the tables exactly when there are lines,
      and the tables hold only selected regions that produced rows. */
  lemma FetchTables(regions: Option<seq<string>>, apiKey: Option<string>, env: string -> string,
                    fetch: (string, string) -> QuoteFetch, today: string, fmt: Formats)
    requires EffectiveKey(apiKey, env) != ""
    ensures "macro_tables" in FetchEodhdMacro(regions, apiKey, env, fetch, today, fmt).extra
        <==> |FetchEodhdMacro(regions, apiKey, env, fetch, today, fmt).contextLines| > 0
    ensures forall k :: k in CollectRegions(EffectiveKey(apiKey, env), DataSources.SelectedRegions(regions), fetch, today, fmt).tables ==>
      k in DataSources.SelectedRegions(regions) && |RowsOf(EffectiveKey(apiKey, env), k, fetch, today, fmt)| > 0
    ensures "macro_tables" in FetchEodhdMacro(regions, apiKey, env, fetch, today, fmt).extra ==>
      FetchEodhdMacro(regions, apiKey, env, fetch, today, fmt).extra["macro_tables"]
      == MacroTables(CollectRegions(EffectiveKey(apiKey, env), DataSources.SelectedRegions(regions), fetch, today, fmt).tables)
  {
  }

  /** With a key, there is one info entry exactly when there are no lines,
      and every other entry is a warning. */
  lemma FetchFeedback(regions: Option<seq<string>>, apiKey: Option<string>, env: string -> string,
                      fetch: (string, string) -> QuoteFetch, today: string, fmt: Formats)
    requires EffectiveKey(apiKey, env) != ""
    ensures CountLevel(FetchEodhdMacro(regions, apiKey, env, fetch, today, fmt).feedback, Info)
         == if |FetchEodhdMacro(regions, apiKey, env, fetch, today, fmt).contextLines| == 0 then 1 else 0
    ensures CountLevel(FetchEodhdMacro(regions, apiKey, env, fetch, today, fmt).feedback, Warning)
         == |FailedRequests(EffectiveKey(apiKey, env), DataSources.SelectedRegions(regions), fetch)|
    ensures |FetchEodhdMacro(regions, apiKey, env, fetch, today, fmt).contextLines|
         == |AllRows(EffectiveKey(apiKey, env), DataSources.SelectedRegions(regions), fetch, today, fmt)|
  {
    var c := CollectRegions(EffectiveKey(apiKey, env), DataSources.SelectedRegions(regions), fetch, today, fmt);
    var r := FetchEodhdMacro(regions, apiKey, env, fetch, today, fmt);
    assert r.feedback == c.feedback + (if |c.lines| == 0 then [Feedback(Info, NoData)] else []);
    assert r.contextLines == c.lines;
    InfoTail(c.feedback, |c.lines| == 0, NoData);
    CollectCounts(EffectiveKey(apiKey, env), DataSources.SelectedRegions(regions), fetch, today, fmt);
  }

  /** An unknown region is quoted through SPY.US alone. */
  lemma UnknownRegionUsesSpy(regionId: string)
    requires regionId !in ["asia", "australia", "europe"]
    ensures Symbols(regionId) == ["SPY.US"]
  {
    assert Keys(SymbolsMap) == ["asia", "australia", "europe"];
  }

  /** A body that is not a list, or an empty list, adds no row and no
      feedback. */
  lemma SilentAnswers(symbol: string, body: QuoteBody, today: string, fmt: Formats)
    requires body.OtherJson? || body.records == []
    ensures SymbolStep(symbol, Answered(body), today, fmt) == NoRow
  {
  }
}
