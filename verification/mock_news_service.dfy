/** The offline news adapter (services/mock_news_service.py): a category
    filter over fixed synthetic news items, one context line per kept item. */
module MockNewsService {
  import opened Dicts
  import opened Models
  import DataSources

  /** A synthetic item; synthetic items carry no live fields. */
  function Story(headline: string, category: string, source: string, sentiment: string,
                 timestamp: string, blurb: string): NewsItem
  {
    NewsItem(headline, category, source, sentiment, timestamp, blurb, None)
  }

  /** `SYNTHETIC_NEWS_DATA`: region id to its items, in insertion order. */
  const SyntheticNewsData: Dict<string, seq<NewsItem>> := [
    ("asia", [
      Story("China anuncia paquete de infraestructura verde por $120B", "Macro Policy", "Xinhua",
            "positive", "2025-10-02T08:30:00Z",
            "La inversión apunta a estabilizar el crecimiento y reforzar la transición energética."),
      Story("Tensiones comerciales Japón-Corea reavivan controles de exportación", "Trade", "Nikkei Asia",
            "negative", "2025-10-03T05:10:00Z",
            "Las restricciones podrían afectar cadenas de suministro de semiconductores.")
    ]),
    ("australia", [
      Story("Gobierno australiano presenta plan de subsidios para hidrógeno", "Energy", "ABC",
            "positive", "2025-10-01T21:45:00Z",
            "Se busca atraer inversión asiática y consolidar liderazgo en energías limpias."),
      Story("Mineras australianas alertan caída en demanda de mineral de hierro", "Trade", "Financial Review",
            "negative", "2025-10-04T02:00:00Z",
            "La desaceleración china presiona precios y envíos previstos para 2026.")
    ]),
    ("europe", [
      Story("BCE adelanta que podría reducir balance más rápido", "Macro Policy", "Reuters",
            "negative", "2025-10-02T11:15:00Z",
            "El mercado descuenta condiciones financieras más estrictas a inicios de 2026."),
      Story("Alemania impulsa paquete fiscal para reactivar inversión industrial", "Macro Policy", "Handelsblatt",
            "positive", "2025-10-03T09:22:00Z",
            "Incluye incentivos para producción de baterías y tecnologías limpias.")
    ])
  ]

  const NoNews := "No se encontraron noticias ficticias para los filtros seleccionados."

  /** A table of items by region id. */
  type NewsData = Dict<string, seq<NewsItem>>

  /** An ISO instant in UTC to the second, `YYYY-MM-DDTHH:MM:SSZ`. */
  predicate IsoUtc(ts: string)
  {
    |ts| == 20 && ts[4] == '-' && ts[7] == '-' && ts[10] == 'T' && ts[13] == ':' && ts[16] == ':' && ts[19] == 'Z'
  }

  /** The `"%Y-%m-%d %H:%M"` text of an item's timestamp: the date and the
      hour and minute of an `IsoUtc` text; other text is kept whole. */
  function MinuteText(ts: string): (t: string)
    ensures IsoUtc(ts) ==> |t| == 16 && t[..10] == ts[..10] && t[10] == ' ' && t[11..] == ts[11..16]
  {
    if IsoUtc(ts) then ts[..10] + " " + ts[11..16] else ts
  }

  /** The context line of an item under a region label:
      `"<label> · <category> · <minute> UTC · <headline> (<sentiment>). <blurb>"`. */
  function MockLine(regionLabel: string, item: NewsItem): (line: string)
    ensures regionLabel + " · " + item.category + " · " <= line
  {
    var head := regionLabel + " · " + item.category + " · ";
    head + (MinuteText(item.timestamp) + " UTC · " + item.headline + " (" + item.sentiment + "). " + item.blurb)
  }

  /** The items whose category is selected, in data order. */
  function Kept(items: seq<NewsItem>, categories: seq<string>): (kept: seq<NewsItem>)
    ensures |kept| <= |items|
    ensures forall x :: x in kept <==> x in items && x.category in categories
  {
    if |items| == 0 then []
    else
      var rest := Kept(items[1..], categories);
      assert forall x :: x in items <==> x == items[0] || x in items[1..];
      if items[0].category in categories then [items[0]] + rest else rest
  }

  /** What the walk gathers: the lines and the kept items by region. */
  datatype Walked = Walked(lines: seq<string>, news: map<string, seq<NewsItem>>)

  /** The region loop: a region with nothing kept is skipped; any other gets
      its kept items (a later occurrence of the same region replaces an
      earlier one) and one line per kept item under its display label. */
  function Walk(data: NewsData, selected: seq<string>, categories: seq<string>): (w: Walked)
    ensures forall k :: k in w.news <==> k in selected && |Kept(Entries(data, k), categories)| > 0
    ensures forall k <- w.news :: w.news[k] == Kept(Entries(data, k), categories)
    ensures |w.lines| == 0 <==> w.news == map[]
  {
    if |selected| == 0 then Walked([], map[])
    else
      var regionId := selected[0];
      var kept := Kept(Entries(data, regionId), categories);
      var rest := Walk(data, selected[1..], categories);
      assert forall k :: k in selected <==> k == regionId || k in selected[1..];
      if |kept| == 0 then rest
      else
        var news := map[regionId := kept] + rest.news;
        assert regionId in news;
        Walked(RegionLines(DataSources.RegionLabel(regionId), kept) + rest.lines, news)
  }

  /** The lines of a region's kept items, one per item, in order. */
  function RegionLines(regionLabel: string, items: seq<NewsItem>): (lines: seq<string>)
    ensures |lines| == |items|
    ensures forall i :: 0 <= i < |items| ==> lines[i] == MockLine(regionLabel, items[i])
  {
    if |items| == 0 then [] else [MockLine(regionLabel, items[0])] + RegionLines(regionLabel, items[1..])
  }

  /** `fetch_mock_news(regions, categories)` over `data`; the adapter reads
      `SyntheticNewsData`. An absent or empty selection means every region
      of the data, or all five categories. */
  function FetchMockNews(data: NewsData, regions: Option<seq<string>>, categories: Option<seq<string>>): (r: SourceResult)
    ensures r.timeseries == map[]
    ensures "news" in r.extra <==> |r.contextLines| > 0
    ensures r.feedback == if |r.contextLines| == 0 then [Feedback(Info, NoNews)] else []
  {
    var w := Walk(data, DataSources.OrAll(regions, Keys(data)), DataSources.SelectedCategories(categories));
    var extra := if w.news != map[] then map["news" := NewsByRegion(w.news)] else map[];
    SourceResult(w.lines, if |w.lines| == 0 then [Feedback(Info, NoNews)] else [], map[], extra)
  }

  // ---------------------------------------------------------------------
  // Properties of the filter and the walk

  /** The filter distributes over concatenation and keeps a single item
      exactly when its category is selected; together these say it keeps
      the selected items in data order. */
  lemma {:induction false} KeptAppend(a: seq<NewsItem>, b: seq<NewsItem>, categories: seq<string>)
    ensures Kept(a + b, categories) == Kept(a, categories) + Kept(b, categories)
  {
    if |a| == 0 {
      assert a + b == b;
    } else {
      assert (a + b)[1..] == a[1..] + b;
      KeptAppend(a[1..], b, categories);
    }
  }

  lemma KeptSingle(x: NewsItem, categories: seq<string>)
    ensures Kept([x], categories) == if x.category in categories then [x] else []
  {
    assert [x][1..] == [];
  }

  /** Filtering twice by the same categories changes nothing. */
  lemma {:induction false} KeptIdempotent(items: seq<NewsItem>, categories: seq<string>)
    ensures Kept(Kept(items, categories), categories) == Kept(items, categories)
  {
    if |items| > 0 {
      KeptIdempotent(items[1..], categories);
      if items[0].category in categories {
        assert ([items[0]] + Kept(items[1..], categories))[1..] == Kept(items[1..], categories);
      }
    }
  }

  /** The kept items of the selection, region by region, each paired with
      its region id. */
  function SelectedItems(data: NewsData, selected: seq<string>, categories: seq<string>): seq<(string, NewsItem)>
  {
    if |selected| == 0 then []
    else Tag(selected[0], Kept(Entries(data, selected[0]), categories)) + SelectedItems(data, selected[1..], categories)
  }

  /** The line of each tagged item. */
  function TaggedLines(tagged: seq<(string, NewsItem)>): (lines: seq<string>)
    ensures |lines| == |tagged|
    ensures forall i :: 0 <= i < |tagged| ==> lines[i] == MockLine(DataSources.RegionLabel(tagged[i].0), tagged[i].1)
  {
    if |tagged| == 0 then [] else [MockLine(DataSources.RegionLabel(tagged[0].0), tagged[0].1)] + TaggedLines(tagged[1..])
  }

  lemma {:induction false} TaggedLinesAppend(a: seq<(string, NewsItem)>, b: seq<(string, NewsItem)>)
    ensures TaggedLines(a + b) == TaggedLines(a) + TaggedLines(b)
  {
    if |a| == 0 {
      assert a + b == b;
    } else {
      assert (a + b)[1..] == a[1..] + b;
      TaggedLinesAppend(a[1..], b);
    }
  }

  /** The lines are exactly one per kept item, ordered by selected region
      and then by data order. */
  lemma {:induction false} WalkLines(data: NewsData, selected: seq<string>, categories: seq<string>)
    ensures Walk(data, selected, categories).lines == TaggedLines(SelectedItems(data, selected, categories))
  {
    if |selected| > 0 {
      WalkLines(data, selected[1..], categories);
      var regionId := selected[0];
      var tagged := Tag(regionId, Kept(Entries(data, regionId), categories));
      TaggedLinesAppend(tagged, SelectedItems(data, selected[1..], categories));
      assert TaggedLines(tagged) == RegionLines(DataSources.RegionLabel(regionId), Kept(Entries(data, regionId), categories));
    }
  }

  lemma {:induction false} SelectedItemsAppend(data: NewsData, a: seq<string>, b: seq<string>, categories: seq<string>)
    ensures SelectedItems(data, a + b, categories) == SelectedItems(data, a, categories) + SelectedItems(data, b, categories)
  {
    if |a| == 0 {
      assert a + b == b;
    } else {
      assert (a + b)[1..] == a[1..] + b;
      SelectedItemsAppend(data, a[1..], b, categories);
    }
  }

  lemma SkipItems(data: NewsData, before: seq<string>, regionId: string, after: seq<string>, categories: seq<string>)
    requires regionId !in Keys(data)
    ensures SelectedItems(data, before + [regionId] + after, categories) == SelectedItems(data, before + after, categories)
  {
    SelectedItemsAppend(data, before + [regionId], after, categories);
    SelectedItemsAppend(data, before, [regionId], categories);
    SelectedItemsAppend(data, before, after, categories);
    assert SelectedItems(data, [regionId], categories) == [] by {
      assert Entries(data, regionId) == [];
    }
  }

  /** A region the data does not know adds nothing, wherever it stands:
      no lines and no news entry. */
  lemma UnknownRegionSkipped(data: NewsData, before: seq<string>, regionId: string, after: seq<string>, categories: seq<string>)
    requires regionId !in Keys(data)
    ensures Walk(data, before + [regionId] + after, categories).lines == Walk(data, before + after, categories).lines
    ensures regionId !in Walk(data, before + [regionId] + after, categories).news
  {
    WalkLines(data, before + [regionId] + after, categories);
    WalkLines(data, before + after, categories);
    SkipItems(data, before, regionId, after, categories);
  }

  /** The adapter's lines are one per kept item of the selected regions, in
      order, and its news map holds exactly the selected regions with kept
      items, each with its kept items. */
  lemma FetchSpec(data: NewsData, regions: Option<seq<string>>, categories: Option<seq<string>>)
    ensures var r := FetchMockNews(data, regions, categories);
      r.contextLines == TaggedLines(SelectedItems(data, DataSources.OrAll(regions, Keys(data)), DataSources.SelectedCategories(categories)))
    ensures var r := FetchMockNews(data, regions, categories);
      "news" in r.extra ==> (r.extra["news"].NewsByRegion? &&
        forall k :: k in r.extra["news"].news <==>
          k in DataSources.OrAll(regions, Keys(data)) && |Kept(Entries(data, k), DataSources.SelectedCategories(categories))| > 0)
  {
    WalkLines(data, DataSources.OrAll(regions, Keys(data)), DataSources.SelectedCategories(categories));
  }

  /** The synthetic regions are the catalogue's three, and every synthetic
      item has one of the five categories. */
  lemma SyntheticShape()
    ensures Keys(SyntheticNewsData) == Keys(DataSources.RegionalMacroRegions)
    ensures forall i, j :: 0 <= i < |SyntheticNewsData| && 0 <= j < |SyntheticNewsData[i].1| ==>
      SyntheticNewsData[i].1[j].category in DataSources.NewsCategories
  {
  }

  /** Every synthetic timestamp is a well-formed UTC instant. */
  lemma SyntheticTimestamps()
    ensures forall i, j :: 0 <= i < |SyntheticNewsData| && 0 <= j < |SyntheticNewsData[i].1| ==>
      IsoUtc(SyntheticNewsData[i].1[j].timestamp)
  {
  }
}
