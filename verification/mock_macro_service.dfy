/** The offline regional-indicator adapter (services/mock_macro_service.py):
    a walk over fixed synthetic indicator rows, one context line per row. */
module MockMacroService {
  import opened Dicts
  import opened Models
  import DataSources

  /** An indicator row with both values known. */
  function Indicator(indicator: string, current: real, previous: real, units: string, date: string, signal: string): MacroRow
  {
    MacroRow(indicator, Some(current), Some(previous), units, date, signal)
  }

  /** `SYNTHETIC_MACRO_DATA`: region id to its rows, in insertion order. */
  const SyntheticMacroData: Dict<string, seq<MacroRow>> := [
    ("asia", [
      Indicator("China Manufacturing PMI", 50.8, 50.1, "index", "2025-09-30",
                "Manufacturing momentum improves alongside stimulus rollout."),
      Indicator("Japan Core CPI", 2.4, 2.6, "% y/y", "2025-09-30",
                "Inflation eases, keeping BoJ normalization cautious.")
    ]),
    ("australia", [
      Indicator("Australia Unemployment Rate", 4.1, 4.0, "%", "2025-08-31",
                "Labor market softens amid commodity price volatility."),
      Indicator("RBA Cash Rate Outlook", 4.35, 4.35, "%", "2025-09-16",
                "Policy on hold; board signals bias toward final hike if inflation re-accelerates.")
    ]),
    ("europe", [
      Indicator("Eurozone Composite PMI", 48.7, 49.1, "index", "2025-09-30",
                "Contraction deepens, particularly in Germany's manufacturing."),
      Indicator("UK GDP q/q", 0.3, 0.1, "%", "2025-09-30",
                "Services resilience offsets weak construction activity.")
    ])
  ]

  const NoData := "No se encontraron datos macroeconómicos ficticios para las regiones seleccionadas."

  /** A table of rows by region id. */
  type MacroData = Dict<string, seq<MacroRow>>

  /** What the walk gathers: the lines and the tables. */
  datatype Walked = Walked(lines: seq<string>, tables: map<string, seq<MacroRow>>)

  /** The region loop: a region without rows is skipped; any other gets its
      table and one line per row under its display label. */
  function Walk(data: MacroData, selected: seq<string>, fmt: Formats): (w: Walked)
    ensures forall k :: k in w.tables <==> k in selected && |Entries(data, k)| > 0
    ensures forall k <- w.tables :: w.tables[k] == Entries(data, k)
    ensures |w.lines| == 0 <==> w.tables == map[]
  {
    if |selected| == 0 then Walked([], map[])
    else
      var regionId := selected[0];
      var entries := Entries(data, regionId);
      var rest := Walk(data, selected[1..], fmt);
      assert forall k :: k in selected <==> k == regionId || k in selected[1..];
      if |entries| == 0 then rest
      else
        var tables := map[regionId := entries] + rest.tables;
        assert regionId in tables;
        Walked(MacroLines(DataSources.RegionLabel(regionId), entries, fmt) + rest.lines, tables)
  }

  /** `fetch_regional_macro(regions)` over `data`; the adapter reads
      `SyntheticMacroData`. */
  function FetchRegionalMacro(data: MacroData, regions: Option<seq<string>>, fmt: Formats): (r: SourceResult)
    ensures r.timeseries == map[]
    ensures "macro_tables" in r.extra <==> |r.contextLines| > 0
    ensures r.feedback == if |r.contextLines| == 0 then [Feedback(Info, NoData)] else []
  {
    var w := Walk(data, DataSources.OrAll(regions, Keys(data)), fmt);
    var extra := if w.tables != map[] then map["macro_tables" := MacroTables(w.tables)] else map[];
    SourceResult(w.lines, if |w.lines| == 0 then [Feedback(Info, NoData)] else [], map[], extra)
  }

  // ---------------------------------------------------------------------
  // Properties of the walk

  /** The rows of the selection, region by region, in row order. */
  function SelectedRows(data: MacroData, selected: seq<string>): seq<(string, MacroRow)>
  {
    if |selected| == 0 then []
    else Tag(selected[0], Entries(data, selected[0])) + SelectedRows(data, selected[1..])
  }

  /** The lines are exactly one per selected row, ordered by selected region
      and then by row order. */
  lemma {:induction false} WalkLines(data: MacroData, selected: seq<string>, fmt: Formats)
    ensures Walk(data, selected, fmt).lines == DataSources.TaggedMacroLines(SelectedRows(data, selected), fmt)
  {
    if |selected| > 0 {
      WalkLines(data, selected[1..], fmt);
      var regionId := selected[0];
      var tagged := Tag(regionId, Entries(data, regionId));
      DataSources.TaggedMacroLinesAppend(tagged, SelectedRows(data, selected[1..]), fmt);
      assert DataSources.TaggedMacroLines(tagged, fmt) == MacroLines(DataSources.RegionLabel(regionId), Entries(data, regionId), fmt);
    }
  }

  /** A region the data does not know adds nothing, wherever it stands:
      no lines and no table. */
  lemma UnknownRegionSkipped(data: MacroData, before: seq<string>, regionId: string, after: seq<string>, fmt: Formats)
    requires regionId !in Keys(data)
    ensures Walk(data, before + [regionId] + after, fmt).lines == Walk(data, before + after, fmt).lines
    ensures regionId !in Walk(data, before + [regionId] + after, fmt).tables
  {
    WalkLines(data, before + [regionId] + after, fmt);
    WalkLines(data, before + after, fmt);
    SkipRows(data, before, regionId, after);
  }

  lemma SkipRows(data: MacroData, before: seq<string>, regionId: string, after: seq<string>)
    requires regionId !in Keys(data)
    ensures SelectedRows(data, before + [regionId] + after) == SelectedRows(data, before + after)
  {
    SelectedRowsAppend(data, before + [regionId], after);
    SelectedRowsAppend(data, before, [regionId]);
    SelectedRowsAppend(data, before, after);
    assert SelectedRows(data, [regionId]) == [] by {
      assert Entries(data, regionId) == [];
    }
  }

  lemma {:induction false} SelectedRowsAppend(data: MacroData, a: seq<string>, b: seq<string>)
    ensures SelectedRows(data, a + b) == SelectedRows(data, a) + SelectedRows(data, b)
  {
    if |a| == 0 {
      assert a + b == b;
    } else {
      assert (a + b)[1..] == a[1..] + b;
      SelectedRowsAppend(data, a[1..], b);
    }
  }

  /** Every synthetic row carries both values, so every line has its
      change text; the three regions are the catalogue's. */
  lemma SyntheticShape()
    ensures Keys(SyntheticMacroData) == Keys(DataSources.RegionalMacroRegions)
    ensures forall i :: 0 <= i < |SyntheticMacroData| ==> |SyntheticMacroData[i].1| == 2
    ensures forall i, j :: 0 <= i < |SyntheticMacroData| && 0 <= j < |SyntheticMacroData[i].1| ==>
      SyntheticMacroData[i].1[j].current.Some? && SyntheticMacroData[i].1[j].previous.Some?
  {
  }

  /** The adapter's lines are one per row of the selected regions, in order,
      and its table map holds exactly the selected regions that have rows. */
  lemma FetchSpec(data: MacroData, regions: Option<seq<string>>, fmt: Formats)
    ensures var r := FetchRegionalMacro(data, regions, fmt);
      r.contextLines == DataSources.TaggedMacroLines(SelectedRows(data, DataSources.OrAll(regions, Keys(data))), fmt)
    ensures var r := FetchRegionalMacro(data, regions, fmt);
      "macro_tables" in r.extra ==>
        r.extra["macro_tables"].MacroTables? &&
        (forall k :: k in r.extra["macro_tables"].tables <==>
          k in DataSources.OrAll(regions, Keys(data)) && |Entries(data, k)| > 0)
  {
    WalkLines(data, DataSources.OrAll(regions, Keys(data)), fmt);
  }
}
