/** The live news adapters (services/news_service.py): NewsAPI.org and
    NewsData.io. For each selected region, one request per country and
    category; every kept article becomes a news item, scored by the
    sentiment analyser, and one context line.

    The HTTP call is a parameter `fetch` from a request to its outcome, with
    the provider's article list already read out of the JSON body under the
    provider's own key names. The environment lookup, the clock that
    resolves publication dates, and number rendering are parameters too. */
module NewsService {
  import opened Dicts
  import opened Text
  import opened Models
  import DataSources
  import SentimentAnalyzer

  /** A JSON field of an article: absent, `null`, or a string. */
  datatype Field = Absent | Null | Str(text: string)

  /** The field's value is a non-empty string (Python truthiness). */
  predicate Truthy(f: Field)
  {
    f.Str? && f.text != ""
  }

  /** `article.get(key, "") or ""`: the string, or empty for absent and `null`. */
  function TextOf(f: Field): (t: string)
    ensures f.Str? ==> t == f.text
    ensures !f.Str? ==> t == ""
    ensures t != "" <==> Truthy(f)
  {
    if f.Str? then f.text else ""
  }

  /** One article of a response. `source` and `url` are the provider's
      source name and link, `None` when absent. */
  datatype Article = Article(title: Field, description: Field, published: Field,
                             source: Option<string>, url: Option<string>)

  datatype Provider = NewsApi | NewsData

  /** The parameters of one request that vary: the key, the provider's
      country code and the provider's category. */
  datatype Request = Request(provider: Provider, key: string, country: string, category: string)

  /** What one request can end in: the articles, or a `RequestException`. */
  datatype NewsFetch = Articles(articles: seq<Article>) | RequestFailed(reason: string)

  const NoNews := "No se encontraron noticias para los filtros seleccionados."

  /** The environment variable a provider reads its key from. */
  function KeyVariable(p: Provider): (v: string)
    ensures |v| > 4 && v[|v| - 4..] == "_KEY"
    ensures p.NewsApi? <==> v == "NEWSAPI_KEY"
  {
    match p
    case NewsApi => "NEWSAPI_KEY"
    case NewsData => "NEWSDATA_KEY"
  }

  /** The warning of a provider without a key. */
  function MissingKey(p: Provider): (m: string)
    ensures Contains(m, KeyVariable(p))
  {
    var name := match p case NewsApi => "NewsAPI" case NewsData => "NewsData.io";
    var head := "API key de " + name + " no configurada. Usa la variable ";
    var m := head + KeyVariable(p) + " en .env";
    assert m[|head|..|head| + |KeyVariable(p)|] == KeyVariable(p);
    assert OccursAt(m, KeyVariable(p), |head|);
    m
  }

  /** The NewsAPI category of each system category. */
  const NewsApiCategories: Dict<string, string> := [
    ("Macro Policy", "business"),
    ("Trade", "business"),
    ("Energy", "business"),
    ("Technology", "technology"),
    ("Geopolitics", "general")
  ]

  /** The NewsData category of each system category. */
  const NewsDataCategories: Dict<string, string> := [
    ("Macro Policy", "business"),
    ("Trade", "business"),
    ("Energy", "science"),
    ("Technology", "technology"),
    ("Geopolitics", "politics")
  ]

  /** The NewsAPI countries of each region, in request order. */
  const NewsApiCountries: Dict<string, seq<string>> := [
    ("asia", ["cn", "jp", "kr", "in"]),
    ("australia", ["au"]),
    ("europe", ["gb", "de", "fr", "it", "es"])
  ]

  /** The one NewsData country of each region. */
  const NewsDataCountries: Dict<string, string> := [
    ("asia", "us"),
    ("australia", "au"),
    ("europe", "gb")
  ]

  /** NewsData keeps at most this many articles of each response. */
  const NewsDataLimit: nat := 5

  function CategoryMap(p: Provider): Dict<string, string>
  {
    match p
    case NewsApi => NewsApiCategories
    case NewsData => NewsDataCategories
  }

  /** The provider's category for a system category; anything unknown is
      "business". */
  function ApiCategory(p: Provider, category: string): (c: string)
    ensures category !in Keys(CategoryMap(p)) ==> c == "business"
    ensures category in Keys(CategoryMap(p)) ==> Get(CategoryMap(p), category) == Some(c)
  {
    GetOr(CategoryMap(p), category, "business")
  }

  /** The countries asked for a region; an unknown region is asked as the
      United States. NewsData asks exactly one country per region. */
  function Countries(p: Provider, regionId: string): (countries: seq<string>)
    ensures p.NewsApi? && regionId !in Keys(NewsApiCountries) ==> countries == ["us"]
    ensures p.NewsApi? && regionId in Keys(NewsApiCountries) ==> Get(NewsApiCountries, regionId) == Some(countries)
    ensures p.NewsData? ==> |countries| == 1
    ensures p.NewsData? && regionId !in Keys(NewsDataCountries) ==> countries == ["us"]
    ensures p.NewsData? && regionId in Keys(NewsDataCountries) ==> Get(NewsDataCountries, regionId) == Some(countries[0])
  {
    match p
    case NewsApi => GetOr(NewsApiCountries, regionId, ["us"])
    case NewsData => [GetOr(NewsDataCountries, regionId, "us")]
  }

  /** The part of a response that is looked at: all of it for NewsAPI, the
      first five articles for NewsData. */
  function Window(p: Provider, articles: seq<Article>): (w: seq<Article>)
    ensures w <= articles
    ensures p.NewsApi? ==> w == articles
    ensures p.NewsData? ==> |w| == if |articles| < NewsDataLimit then |articles| else NewsDataLimit
  {
    match p
    case NewsApi => articles
    case NewsData => if |articles| < NewsDataLimit then articles else articles[..NewsDataLimit]
  }

  /** An article is kept when its title is a non-empty string; NewsAPI also
      drops the "[Removed]" placeholder. */
  predicate Keep(p: Provider, a: Article): (k: bool)
    ensures k ==> a.title.Str? && |a.title.text| > 0
    ensures a.title == Str("[Removed]") ==> (k <==> p.NewsData?)
    ensures p.NewsData? ==> (k <==> Truthy(a.title))
  {
    Truthy(a.title) && !(p.NewsApi? && a.title.text == "[Removed]")
  }

  /** The kept articles, in response order. */
  function Filter(p: Provider, articles: seq<Article>): (kept: seq<Article>)
    ensures |kept| <= |articles|
    ensures forall a :: a in kept <==> a in articles && Keep(p, a)
  {
    if |articles| == 0 then []
    else
      var rest := Filter(p, articles[1..]);
      assert forall a :: a in articles <==> a == articles[0] || a in articles[1..];
      if Keep(p, articles[0]) then [articles[0]] + rest else rest
  }

  /** The articles of a response that become items. */
  function Kept(p: Provider, articles: seq<Article>): (kept: seq<Article>)
    ensures forall a :: a in kept <==> a in Window(p, articles) && Keep(p, a)
    ensures p.NewsData? ==> |kept| <= NewsDataLimit
  {
    Filter(p, Window(p, articles))
  }

  // ---------------------------------------------------------------------
  // One article

  /** The text that is scored: the title, a space, and the description with
      `null` read as empty. */
  function FullText(a: Article): (t: string)
    ensures TextOf(a.title) <= t
    ensures |t| == |TextOf(a.title)| + 1 + |TextOf(a.description)|
  {
    TextOf(a.title) + " " + TextOf(a.description)
  }

  /** What slicing `None` raises. */
  const NullSlice := TypeError("'NoneType' object is not subscriptable")

  /** The blurb as the code computes it: the first 200 characters of the
      description, or the title when that is empty. A `null` description is
      sliced as `None[:200]`, which raises `TypeError`; that is not a
      request error, so it leaves the adapter. */
  function BlurbAsWritten(a: Article): (r: Outcome<string>)
    ensures r.Raised? <==> a.description.Null?
    ensures r.Raised? ==> r.error == NullSlice
    ensures Truthy(a.description) ==> r == Returned(Take(a.description.text, 200))
    ensures a.description.Absent? || a.description == Str("") ==> r == Returned(TextOf(a.title))
  {
    match a.description
    case Null => Raised(NullSlice)
    case Absent => Returned(TextOf(a.title))
    case Str(d) => Returned(if Take(d, 200) != "" then Take(d, 200) else TextOf(a.title))
  }

  /** The blurb with `null` read as an empty description, as the scored
      text already reads it: at most 200 characters of the description, or
      the title when there is no description. */
  function Blurb(a: Article): (b: string)
    ensures Truthy(a.description) ==> b == Take(a.description.text, 200) && b != "" && |b| <= 200
    ensures !Truthy(a.description) ==> b == TextOf(a.title)
  {
    var cut := Take(TextOf(a.description), 200);
    if cut != "" then cut else TextOf(a.title)
  }

  /** The text the clock resolves: `publishedAt`/`pubDate`, empty when
      absent or `null` (the clock gives the current instant for that and
      for text it cannot parse). */
  function PublishedText(a: Article): (t: string)
    ensures a.published.Str? ==> t == a.published.text
    ensures !a.published.Str? ==> t == ""
  {
    TextOf(a.published)
  }

  /** The market-trend fields of an article, from its scored text at base
      rate 1. */
  function ArticleTrend(a: Article): (t: TrendFields)
    ensures var tr := SentimentAnalyzer.InferMarketTrend(FullText(a), None, 1.0);
      t.p == tr.p && t.q == tr.q && t.s == tr.s && t.sumaValores == tr.sumaValores
      && t.tendencia == tr.tendencia && t.esAlzista == tr.esAlzista && t.tasa == tr.tasa
    ensures t.tendencia == "ALZISTA" <==> t.esAlzista
    ensures t.sumaValores == t.p + t.q + t.s
    ensures t.esAlzista <==> t.sumaValores > 0.0
    ensures t.esAlzista ==> t.tasa == 1.0 + t.sumaValores
    ensures !t.esAlzista ==> t.tasa == 1.0
  {
    var tr := SentimentAnalyzer.InferMarketTrend(FullText(a), None, 1.0);
    TrendFields(tr.p, tr.q, tr.s, tr.tendencia, tr.esAlzista, tr.tasa, tr.sumaValores)
  }

  /** The news item of a kept article under its original category, given
      its blurb. */
  function Item(a: Article, category: string, instant: Instant, blurb: string): (item: NewsItem)
    ensures item.headline == TextOf(a.title) && item.category == category
    ensures item.source == a.source.GetOr("Unknown") && item.timestamp == instant.iso
    ensures item.sentiment == SentimentAnalyzer.AnalyzeNews(FullText(a)).sentiment
    ensures item.blurb == blurb
    ensures item.live == Some(LiveFields(a.url.GetOr(""), ArticleTrend(a)))
  {
    NewsItem(TextOf(a.title), category, a.source.GetOr("Unknown"),
             SentimentAnalyzer.AnalyzeNews(FullText(a)).sentiment, instant.iso, blurb,
             Some(LiveFields(a.url.GetOr(""), ArticleTrend(a))))
  }

  /** The context line of an item:
      `"<label> · <category> · <minute> UTC · <headline> (<sentiment>). Análisis: p=…, q=…, s=…. Tendencia: … (Tasa: …). <blurb>"`. */
  function Line(regionLabel: string, item: NewsItem, trend: TrendFields, minute: string, fmt: Formats): (line: string)
    ensures regionLabel + " · " + item.category + " · " <= line
  {
    var head := regionLabel + " · " + item.category + " · ";
    head + (minute + " UTC · " + item.headline + " (" + item.sentiment + "). "
      + "Análisis: p=" + fmt.fixed(trend.p, 2) + ", q=" + fmt.fixed(trend.q, 2)
      + ", s=" + fmt.fixed(trend.s, 2) + ". Tendencia: " + trend.tendencia
      + " (Tasa: " + fmt.fixed(trend.tasa, 3) + "). " + item.blurb)
  }

  // ---------------------------------------------------------------------
  // One request

  /** What a request, or a run of requests, adds: items, lines and warnings. */
  datatype Contribution = Contribution(items: seq<NewsItem>, lines: seq<string>, warnings: seq<Feedback>)
  {
    /** One line per item. */
    predicate Balanced()
    {
      |items| == |lines|
    }
  }

  function Combine(a: Contribution, b: Contribution): (c: Contribution)
    ensures a.Balanced() && b.Balanced() ==> c.Balanced()
  {
    Contribution(a.items + b.items, a.lines + b.lines, a.warnings + b.warnings)
  }

  /** An article's item and line, with the corrected blurb: the item is
      stamped with the instant its publication text resolves to, and the
      line starts with the region label and the category. */
  function Report(regionLabel: string, category: string, a: Article, clock: string -> Instant, fmt: Formats): (r: (NewsItem, string))
    ensures r.0.headline == TextOf(a.title) && r.0.category == category && r.0.blurb == Blurb(a)
    ensures r.0.timestamp == clock(PublishedText(a)).iso
    ensures regionLabel + " · " + category + " · " <= r.1
  {
    var instant := clock(PublishedText(a));
    var item := Item(a, category, instant, Blurb(a));
    (item, Line(regionLabel, item, ArticleTrend(a), instant.minute, fmt))
  }

  /** The items and lines of the kept articles, in order, given how one
      article is reported. */
  function Reports(kept: seq<Article>, report: Article -> (NewsItem, string)): (c: Contribution)
    ensures c.Balanced() && |c.items| == |kept| && c.warnings == []
    ensures forall i :: 0 <= i < |kept| ==> c.items[i] == report(kept[i]).0 && c.lines[i] == report(kept[i]).1
  {
    if |kept| == 0 then Contribution([], [], [])
    else
      var rest := Reports(kept[1..], report);
      Contribution([report(kept[0]).0] + rest.items, [report(kept[0]).1] + rest.lines, [])
  }

  /** The warning of a failed request: NewsAPI names the country, NewsData
      the region. */
  function FailureText(p: Provider, regionId: string, country: string, category: string, reason: string): (t: string)
    ensures p.NewsApi? ==> t == "Error al obtener noticias de " + country + "/" + category + ": " + reason
    ensures p.NewsData? ==> t == "Error al obtener noticias de NewsData.io para " + regionId + "/" + category + ": " + reason
  {
    match p
    case NewsApi => "Error al obtener noticias de " + country + "/" + category + ": " + reason
    case NewsData => "Error al obtener noticias de NewsData.io para " + regionId + "/" + category + ": " + reason
  }

  /** The body of the innermost loop: a failed request gives one warning and
      nothing else; an answered one gives an item and a line per kept
      article and no feedback. */
  function RequestStep(p: Provider, regionId: string, country: string, category: string, outcome: NewsFetch,
                       clock: string -> Instant, fmt: Formats): (c: Contribution)
    ensures c.Balanced()
    ensures outcome.RequestFailed? ==>
      c == Contribution([], [], [Feedback(Warning, FailureText(p, regionId, country, category, outcome.reason))])
    ensures outcome.Articles? ==> c.warnings == [] && |c.items| == |Kept(p, outcome.articles)|
    ensures outcome.Articles? ==> forall i :: 0 <= i < |c.items| ==>
      (c.items[i], c.lines[i]) == Report(DataSources.RegionLabel(regionId), category, Kept(p, outcome.articles)[i], clock, fmt)
    ensures forall f <- c.warnings :: f.level == Warning
  {
    match outcome
    case RequestFailed(reason) =>
      Contribution([], [], [Feedback(Warning, FailureText(p, regionId, country, category, reason))])
    case Articles(articles) =>
      Reports(Kept(p, articles), a => Report(DataSources.RegionLabel(regionId), category, a, clock, fmt))
  }

  // ---------------------------------------------------------------------
  // One region

  /** Every (country, category) pair, country by country. */
  function Pairs(countries: seq<string>, categories: seq<string>): (pairs: seq<(string, string)>)
    ensures forall c, k :: (c, k) in pairs <==> c in countries && k in categories
  {
    if |countries| == 0 then []
    else
      var rest := Pairs(countries[1..], categories);
      var mine := Pair(countries[0], categories);
      assert forall c :: c in countries <==> c == countries[0] || c in countries[1..];
      mine + rest
  }

  function Pair(country: string, categories: seq<string>): (pairs: seq<(string, string)>)
    ensures |pairs| == |categories|
    ensures forall i :: 0 <= i < |categories| ==> pairs[i] == (country, categories[i])
    ensures forall c, k :: (c, k) in pairs <==> c == country && k in categories
  {
    if |categories| == 0 then [] else [(country, categories[0])] + Pair(country, categories[1..])
  }

  /** The two nested loops of a region, given the step for one pair. */
  function Pass(pairs: seq<(string, string)>, step: (string, string) -> Contribution): (c: Contribution)
    ensures |pairs| == 0 ==> c == Contribution([], [], [])
    ensures |pairs| > 0 ==> var first := step(pairs[0].0, pairs[0].1);
      first.items <= c.items && first.lines <= c.lines && first.warnings <= c.warnings
  {
    if |pairs| == 0 then Contribution([], [], [])
    else Combine(step(pairs[0].0, pairs[0].1), Pass(pairs[1..], step))
  }

  /** The step of a region: request the pair and read the outcome. */
  function RegionStep(p: Provider, key: string, regionId: string, fetch: Request -> NewsFetch,
                      clock: string -> Instant, fmt: Formats): (step: (string, string) -> Contribution)
    ensures forall country, category :: step(country, category).Balanced()
    ensures forall country, category :: step(country, category).warnings != [] <==>
      fetch(Request(p, key, country, ApiCategory(p, category))).RequestFailed?
  {
    var step := (country: string, category: string) =>
      RequestStep(p, regionId, country, category, fetch(Request(p, key, country, ApiCategory(p, category))), clock, fmt);
    assert forall country, category :: (step(country, category)
      == RequestStep(p, regionId, country, category, fetch(Request(p, key, country, ApiCategory(p, category))), clock, fmt));
    step
  }

  /** All requests of one region. */
  function RegionNews(p: Provider, key: string, regionId: string, categories: seq<string>,
                      fetch: Request -> NewsFetch, clock: string -> Instant, fmt: Formats): (c: Contribution)
    ensures |c.warnings| == |FailedPairs(p, key, Pairs(Countries(p, regionId), categories), fetch)|
    ensures forall f <- c.warnings :: f.level == Warning
  {
    FailuresWarn(p, key, regionId, Pairs(Countries(p, regionId), categories), fetch, clock, fmt);
    Pass(Pairs(Countries(p, regionId), categories), RegionStep(p, key, regionId, fetch, clock, fmt))
  }

  // ---------------------------------------------------------------------
  // The region loop

  /** What the region loop gathers: lines, warnings and the news by region. */
  datatype Collected = Collected(lines: seq<string>, feedback: seq<Feedback>, news: map<string, seq<NewsItem>>)

  /** The region loop over a per-region pass. A region with items gets its
      entry (a later occurrence of the same region with items replaces an
      earlier one); its lines and warnings are appended in region order. */
  function Collect(selected: seq<string>, pass: string -> Contribution): (c: Collected)
    ensures forall k :: k in c.news <==> k in selected && |pass(k).items| > 0
    ensures forall k <- c.news :: c.news[k] == pass(k).items
  {
    if |selected| == 0 then Collected([], [], map[])
    else
      var regionId := selected[0];
      var d := pass(regionId);
      var rest := Collect(selected[1..], pass);
      var c := Prepend(regionId, d, rest);
      assert forall k :: k in selected <==> k == regionId || k in selected[1..];
      assert forall k <- c.news :: c.news[k] == pass(k).items by {
        forall k <- c.news
          ensures c.news[k] == pass(k).items
        {
          if k !in rest.news {
            assert k == regionId;
          }
        }
      }
      c
  }

  /** One region's pass ahead of what the later regions gathered: its lines
      and warnings come first, and its items, if any, are its entry unless a
      later occurrence of the region already has one. */
  function Prepend(regionId: string, d: Contribution, rest: Collected): (c: Collected)
    ensures c.lines == d.lines + rest.lines && c.feedback == d.warnings + rest.feedback
    ensures forall k :: k in c.news <==> k in rest.news || (k == regionId && |d.items| > 0)
    ensures forall k <- rest.news :: c.news[k] == rest.news[k]
    ensures |d.items| > 0 && regionId !in rest.news ==> c.news[regionId] == d.items
  {
    Collected(d.lines + rest.lines, d.warnings + rest.feedback,
              if |d.items| > 0 then map[regionId := d.items] + rest.news else rest.news)
  }

  /** `fetch_newsapi_news` / `fetch_newsdata_news` for provider `p`. */
  function FetchProviderNews(p: Provider, regions: Option<seq<string>>, categories: Option<seq<string>>,
                             apiKey: Option<string>, env: string -> string, fetch: Request -> NewsFetch,
                             clock: string -> Instant, fmt: Formats): (r: SourceResult)
    ensures ApiKey(apiKey, env, KeyVariable(p)) == "" ==> r == NewSourceResult().AddFeedback(Warning, MissingKey(p))
    ensures r.timeseries == map[]
  {
    var key := ApiKey(apiKey, env, KeyVariable(p));
    if key == "" then NewSourceResult().AddFeedback(Warning, MissingKey(p))
    else Assemble(Collect(DataSources.SelectedRegions(regions), PassOf(p, key, categories, fetch, clock, fmt)))
  }

  /** The result of a region loop that ran to the end: its lines, its
      feedback and an info entry when there are no lines, and the news by
      region when there is any. */
  function Assemble(c: Collected): (r: SourceResult)
    ensures r.contextLines == c.lines && r.timeseries == map[]
    ensures r.feedback == c.feedback + (if |c.lines| == 0 then [Feedback(Info, NoNews)] else [])
    ensures "news" in r.extra <==> c.news != map[]
    ensures "news" in r.extra ==> r.extra["news"] == NewsByRegion(c.news)
  {
    var extra := if c.news != map[] then map["news" := NewsByRegion(c.news)] else map[];
    SourceResult(c.lines, c.feedback + (if |c.lines| == 0 then [Feedback(Info, NoNews)] else []), map[], extra)
  }

  /** The per-region pass of a call. */
  function PassOf(p: Provider, key: string, categories: Option<seq<string>>, fetch: Request -> NewsFetch,
                  clock: string -> Instant, fmt: Formats): string -> Contribution
  {
    (regionId: string) => RegionNews(p, key, regionId, DataSources.SelectedCategories(categories), fetch, clock, fmt)
  }

  /** `fetch_newsapi_news(regions, categories, api_key)`. */
  function FetchNewsapiNews(regions: Option<seq<string>>, categories: Option<seq<string>>, apiKey: Option<string>,
                            env: string -> string, fetch: Request -> NewsFetch, clock: string -> Instant, fmt: Formats): (r: SourceResult)
    ensures ApiKey(apiKey, env, "NEWSAPI_KEY") == "" ==> OnlyFeedback(r, Warning)
    ensures r == FetchProviderNews(NewsApi, regions, categories, apiKey, env, fetch, clock, fmt)
  {
    FetchProviderNews(NewsApi, regions, categories, apiKey, env, fetch, clock, fmt)
  }

  /** `fetch_newsdata_news(regions, categories, api_key)`. */
  function FetchNewsdataNews(regions: Option<seq<string>>, categories: Option<seq<string>>, apiKey: Option<string>,
                             env: string -> string, fetch: Request -> NewsFetch, clock: string -> Instant, fmt: Formats): (r: SourceResult)
    ensures ApiKey(apiKey, env, "NEWSDATA_KEY") == "" ==> OnlyFeedback(r, Warning)
    ensures r == FetchProviderNews(NewsData, regions, categories, apiKey, env, fetch, clock, fmt)
  {
    FetchProviderNews(NewsData, regions, categories, apiKey, env, fetch, clock, fmt)
  }

  /** `fetch_news(..., provider)`: "newsdata" selects NewsData, any other
      name NewsAPI. */
  function FetchNews(regions: Option<seq<string>>, categories: Option<seq<string>>, apiKey: Option<string>,
                     provider: string, env: string -> string, fetch: Request -> NewsFetch,
                     clock: string -> Instant, fmt: Formats): (r: SourceResult)
    ensures provider == "newsdata" ==> r == FetchNewsdataNews(regions, categories, apiKey, env, fetch, clock, fmt)
    ensures provider != "newsdata" ==> r == FetchNewsapiNews(regions, categories, apiKey, env, fetch, clock, fmt)
  {
    if provider == "newsdata" then FetchNewsdataNews(regions, categories, apiKey, env, fetch, clock, fmt)
    else FetchNewsapiNews(regions, categories, apiKey, env, fetch, clock, fmt)
  }

  // ---------------------------------------------------------------------
  // Properties of the request loops

  /** Over any run of requests whose steps give a line per item, so does
      the run. */
  lemma {:induction false} PassBalanced(pairs: seq<(string, string)>, step: (string, string) -> Contribution)
    requires forall i :: 0 <= i < |pairs| ==> step(pairs[i].0, pairs[i].1).Balanced()
    ensures Pass(pairs, step).Balanced()
  {
    if |pairs| > 0 {
      PassBalanced(pairs[1..], step);
    }
  }

  /** A region's requests give exactly one line per item. */
  lemma RegionBalanced(p: Provider, key: string, regionId: string, categories: seq<string>,
                       fetch: Request -> NewsFetch, clock: string -> Instant, fmt: Formats)
    ensures RegionNews(p, key, regionId, categories, fetch, clock, fmt).Balanced()
  {
    var step := RegionStep(p, key, regionId, fetch, clock, fmt);
    PassBalanced(Pairs(Countries(p, regionId), categories), step);
  }

  /** The request of a pair. */
  function RequestOf(p: Provider, key: string, pair: (string, string)): Request
  {
    Request(p, key, pair.0, ApiCategory(p, pair.1))
  }

  /** The pairs whose request fails, in order. */
  function FailedPairs(p: Provider, key: string, pairs: seq<(string, string)>, fetch: Request -> NewsFetch): (failed: seq<(string, string)>)
    ensures |failed| <= |pairs|
    ensures forall x <- failed :: x in pairs && fetch(RequestOf(p, key, x)).RequestFailed?
  {
    if |pairs| == 0 then []
    else (if fetch(RequestOf(p, key, pairs[0])).RequestFailed? then [pairs[0]] else []) + FailedPairs(p, key, pairs[1..], fetch)
  }

  /** The pairs whose request is answered, in order. */
  function AnsweredPairs(p: Provider, key: string, pairs: seq<(string, string)>, fetch: Request -> NewsFetch): (answered: seq<(string, string)>)
    ensures |answered| + |FailedPairs(p, key, pairs, fetch)| == |pairs|
    ensures forall x <- answered :: x in pairs && fetch(RequestOf(p, key, x)).Articles?
  {
    if |pairs| == 0 then []
    else (if fetch(RequestOf(p, key, pairs[0])).Articles? then [pairs[0]] else []) + AnsweredPairs(p, key, pairs[1..], fetch)
  }

  /** One warning per failed request, and nothing but warnings. */
  lemma {:induction false} FailuresWarn(p: Provider, key: string, regionId: string, pairs: seq<(string, string)>,
                                        fetch: Request -> NewsFetch, clock: string -> Instant, fmt: Formats)
    ensures |Pass(pairs, RegionStep(p, key, regionId, fetch, clock, fmt)).warnings| == |FailedPairs(p, key, pairs, fetch)|
    ensures forall f <- Pass(pairs, RegionStep(p, key, regionId, fetch, clock, fmt)).warnings :: f.level == Warning
  {
    if |pairs| > 0 {
      var step := RegionStep(p, key, regionId, fetch, clock, fmt);
      FailuresWarn(p, key, regionId, pairs[1..], fetch, clock, fmt);
      var first := step(pairs[0].0, pairs[0].1);
      assert first == RequestStep(p, regionId, pairs[0].0, pairs[0].1, fetch(RequestOf(p, key, pairs[0])), clock, fmt);
      assert Pass(pairs, step).warnings == first.warnings + Pass(pairs[1..], step).warnings;
    }
  }

  /** A failed request does not stop the loop: the items and lines of a run
      are exactly those of its answered requests, in order. */
  lemma {:induction false} FailuresSkipped(p: Provider, key: string, regionId: string, pairs: seq<(string, string)>,
                                           fetch: Request -> NewsFetch, clock: string -> Instant, fmt: Formats)
    ensures Pass(pairs, RegionStep(p, key, regionId, fetch, clock, fmt)).items
         == Pass(AnsweredPairs(p, key, pairs, fetch), RegionStep(p, key, regionId, fetch, clock, fmt)).items
    ensures Pass(pairs, RegionStep(p, key, regionId, fetch, clock, fmt)).lines
         == Pass(AnsweredPairs(p, key, pairs, fetch), RegionStep(p, key, regionId, fetch, clock, fmt)).lines
  {
    if |pairs| > 0 {
      var step := RegionStep(p, key, regionId, fetch, clock, fmt);
      FailuresSkipped(p, key, regionId, pairs[1..], fetch, clock, fmt);
      var first := step(pairs[0].0, pairs[0].1);
      assert first == RequestStep(p, regionId, pairs[0].0, pairs[0].1, fetch(RequestOf(p, key, pairs[0])), clock, fmt);
      var answered := AnsweredPairs(p, key, pairs, fetch);
      if fetch(RequestOf(p, key, pairs[0])).Articles? {
        assert answered[0] == pairs[0] && answered[1..] == AnsweredPairs(p, key, pairs[1..], fetch);
      } else {
        assert first.items == [] && first.lines == [];
        assert answered == AnsweredPairs(p, key, pairs[1..], fetch);
      }
    }
  }

  /** NewsData turns at most five articles of a response into items. */
  lemma NewsDataAtMostFive(regionId: string, country: string, category: string, outcome: NewsFetch,
                           clock: string -> Instant, fmt: Formats)
    ensures |RequestStep(NewsData, regionId, country, category, outcome, clock, fmt).items| <= NewsDataLimit
  {
  }

  /** So a NewsData region has at most five items per category. */
  lemma NewsDataRegionBound(key: string, regionId: string, categories: seq<string>,
                            fetch: Request -> NewsFetch, clock: string -> Instant, fmt: Formats)
    ensures |RegionNews(NewsData, key, regionId, categories, fetch, clock, fmt).items| <= NewsDataLimit * |categories|
  {
    var countries := Countries(NewsData, regionId);
    var pairs := Pairs(countries, categories);
    assert pairs == Pair(countries[0], categories) + Pairs(countries[1..], categories);
    assert countries[1..] == [];
    assert |pairs| == |categories|;
    var step := RegionStep(NewsData, key, regionId, fetch, clock, fmt);
    forall i | 0 <= i < |pairs|
      ensures |step(pairs[i].0, pairs[i].1).items| <= NewsDataLimit
    {
      NewsDataAtMostFive(regionId, pairs[i].0, pairs[i].1, fetch(RequestOf(NewsData, key, pairs[i])), clock, fmt);
    }
    PassBound(pairs, step, NewsDataLimit);
  }

  lemma {:induction false} PassBound(pairs: seq<(string, string)>, step: (string, string) -> Contribution, bound: nat)
    requires forall i :: 0 <= i < |pairs| ==> |step(pairs[i].0, pairs[i].1).items| <= bound
    ensures |Pass(pairs, step).items| <= bound * |pairs|
  {
    if |pairs| > 0 {
      PassBound(pairs[1..], step, bound);
      assert bound * |pairs| == bound + bound * |pairs[1..]|;
    }
  }

  // ---------------------------------------------------------------------
  // Properties of the region loop and the adapters

  /** Every item of the selection, region by region. */
  function AllItems(selected: seq<string>, pass: string -> Contribution): seq<NewsItem>
  {
    if |selected| == 0 then [] else pass(selected[0]).items + AllItems(selected[1..], pass)
  }

  /** With a line per item in every region: one line per item overall, and
      no lines exactly when no region has news. */
  lemma {:induction false} CollectLines(selected: seq<string>, pass: string -> Contribution)
    requires forall r :: pass(r).Balanced()
    ensures |Collect(selected, pass).lines| == |AllItems(selected, pass)|
    ensures |Collect(selected, pass).lines| == 0 <==> Collect(selected, pass).news == map[]
  {
    if |selected| > 0 {
      CollectLines(selected[1..], pass);
      var c := Collect(selected, pass);
      if |pass(selected[0]).items| > 0 {
        assert selected[0] in c.news;
      }
    }
  }

  /** Every failed request of the selection, region by region. */
  function FailedRequests(p: Provider, key: string, selected: seq<string>, categories: seq<string>,
                          fetch: Request -> NewsFetch): seq<(string, string)>
  {
    if |selected| == 0 then []
    else FailedPairs(p, key, Pairs(Countries(p, selected[0]), categories), fetch)
         + FailedRequests(p, key, selected[1..], categories, fetch)
  }

  /** The region loop's feedback has one entry per failed request. */
  lemma {:induction false} CollectWarnings(p: Provider, key: string, selected: seq<string>, categories: Option<seq<string>>,
                                           fetch: Request -> NewsFetch, clock: string -> Instant, fmt: Formats)
    ensures |Collect(selected, PassOf(p, key, categories, fetch, clock, fmt)).feedback|
         == |FailedRequests(p, key, selected, DataSources.SelectedCategories(categories), fetch)|
  {
    if |selected| > 0 {
      var pass := PassOf(p, key, categories, fetch, clock, fmt);
      var cats := DataSources.SelectedCategories(categories);
      CollectWarnings(p, key, selected[1..], categories, fetch, clock, fmt);
      var pairs := Pairs(Countries(p, selected[0]), cats);
      FailuresWarn(p, key, selected[0], pairs, fetch, clock, fmt);
      assert pass(selected[0]) == Pass(pairs, RegionStep(p, key, selected[0], fetch, clock, fmt));
    }
  }

  /** A region loop whose passes warn only gives warnings only. */
  lemma {:induction false} CollectOnlyWarns(selected: seq<string>, pass: string -> Contribution)
    requires forall r :: forall f <- pass(r).warnings :: f.level == Warning
    ensures forall f <- Collect(selected, pass).feedback :: f.level == Warning
  {
    if |selected| > 0 {
      CollectOnlyWarns(selected[1..], pass);
    }
  }

  /** Each region pass of a call warns only. */
  lemma PassOfWarns(p: Provider, key: string, categories: Option<seq<string>>,
                    fetch: Request -> NewsFetch, clock: string -> Instant, fmt: Formats)
    ensures forall r :: forall f <- PassOf(p, key, categories, fetch, clock, fmt)(r).warnings :: f.level == Warning
  {
    forall r
      ensures forall f <- PassOf(p, key, categories, fetch, clock, fmt)(r).warnings :: f.level == Warning
    {
      var pairs := Pairs(Countries(p, r), DataSources.SelectedCategories(categories));
      FailuresWarn(p, key, r, pairs, fetch, clock, fmt);
    }
  }

  /** Each region pass of a call gives a line per item. */
  lemma PassOfBalanced(p: Provider, key: string, categories: Option<seq<string>>,
                       fetch: Request -> NewsFetch, clock: string -> Instant, fmt: Formats)
    ensures forall r :: PassOf(p, key, categories, fetch, clock, fmt)(r).Balanced()
  {
    forall r
      ensures PassOf(p, key, categories, fetch, clock, fmt)(r).Balanced()
    {
      RegionBalanced(p, key, r, DataSources.SelectedCategories(categories), fetch, clock, fmt);
    }
  }

  /** With a key, `extra["news"]` is set exactly when there are lines, and
      holds exactly the selected regions that collected items. */
  lemma FetchExtra(p: Provider, regions: Option<seq<string>>, categories: Option<seq<string>>, apiKey: Option<string>,
                   env: string -> string, fetch: Request -> NewsFetch, clock: string -> Instant, fmt: Formats)
    requires ApiKey(apiKey, env, KeyVariable(p)) != ""
    ensures var r := FetchProviderNews(p, regions, categories, apiKey, env, fetch, clock, fmt);
      "news" in r.extra <==> |r.contextLines| > 0
    ensures var r := FetchProviderNews(p, regions, categories, apiKey, env, fetch, clock, fmt);
      "news" in r.extra ==> (r.extra["news"].NewsByRegion? &&
        forall k :: k in r.extra["news"].news <==>
          k in DataSources.SelectedRegions(regions) &&
          |RegionNews(p, ApiKey(apiKey, env, KeyVariable(p)), k, DataSources.SelectedCategories(categories), fetch, clock, fmt).items| > 0)
  {
    var key := ApiKey(apiKey, env, KeyVariable(p));
    var pass := PassOf(p, key, categories, fetch, clock, fmt);
    PassOfBalanced(p, key, categories, fetch, clock, fmt);
    CollectLines(DataSources.SelectedRegions(regions), pass);
  }

  /** With a key, the feedback is one warning per failed request, followed
      by one info entry exactly when there are no lines. */
  lemma FetchFeedback(p: Provider, regions: Option<seq<string>>, categories: Option<seq<string>>, apiKey: Option<string>,
                      env: string -> string, fetch: Request -> NewsFetch, clock: string -> Instant, fmt: Formats)
    requires ApiKey(apiKey, env, KeyVariable(p)) != ""
    ensures var r := FetchProviderNews(p, regions, categories, apiKey, env, fetch, clock, fmt);
      CountLevel(r.feedback, Info) == if |r.contextLines| == 0 then 1 else 0
    ensures var r := FetchProviderNews(p, regions, categories, apiKey, env, fetch, clock, fmt);
      CountLevel(r.feedback, Warning)
      == |FailedRequests(p, ApiKey(apiKey, env, KeyVariable(p)), DataSources.SelectedRegions(regions), DataSources.SelectedCategories(categories), fetch)|
  {
    var key := ApiKey(apiKey, env, KeyVariable(p));
    var c := Collect(DataSources.SelectedRegions(regions), PassOf(p, key, categories, fetch, clock, fmt));
    CollectWarnings(p, key, DataSources.SelectedRegions(regions), categories, fetch, clock, fmt);
    PassOfWarns(p, key, categories, fetch, clock, fmt);
    CollectOnlyWarns(DataSources.SelectedRegions(regions), PassOf(p, key, categories, fetch, clock, fmt));
    InfoTail(c.feedback, |c.lines| == 0, NoNews);
  }

  /** Every system category has an entry in both providers' maps. */
  lemma CategoriesCovered()
    ensures forall c <- DataSources.NewsCategories :: c in Keys(NewsApiCategories) && c in Keys(NewsDataCategories)
  {
    assert Keys(NewsApiCategories) == ["Macro Policy", "Trade", "Energy", "Technology", "Geopolitics"];
    assert Keys(NewsDataCategories) == ["Macro Policy", "Trade", "Energy", "Technology", "Geopolitics"];
  }

  /** A region outside the catalogue is asked as the United States by both
      providers. */
  lemma UnknownRegionAsksUs(regionId: string)
    requires regionId !in ["asia", "australia", "europe"]
    ensures Countries(NewsApi, regionId) == ["us"] && Countries(NewsData, regionId) == ["us"]
  {
    assert Keys(NewsApiCountries) == ["asia", "australia", "europe"];
    assert Keys(NewsDataCountries) == ["asia", "australia", "europe"];
  }

  /** A category outside the five is asked as "business" by both providers. */
  lemma UnknownCategoryIsBusiness(category: string)
    requires category !in DataSources.NewsCategories
    ensures ApiCategory(NewsApi, category) == "business" && ApiCategory(NewsData, category) == "business"
  {
    assert Keys(NewsApiCategories) == ["Macro Policy", "Trade", "Energy", "Technology", "Geopolitics"];
    assert Keys(NewsDataCategories) == ["Macro Policy", "Trade", "Energy", "Technology", "Geopolitics"];
  }

  // ---------------------------------------------------------------------
  // The blurb of an article with a null description

  /** A kept article whose description is `null`: the blurb as written
      raises, the corrected blurb is the title. */
  lemma NullDescriptionRaises()
    ensures var a := Article(Str("Markets rally"), Null, Absent, None, None);
      Keep(NewsApi, a) && Keep(NewsData, a)
      && BlurbAsWritten(a) == Raised(TypeError("'NoneType' object is not subscriptable"))
      && Blurb(a) == "Markets rally"
  {
  }

  /** The corrected blurb agrees with the code wherever the code returns,
      and reads a `null` description as empty, as the scored text does. A
      kept article always has a non-empty blurb. */
  lemma BlurbCorrected(p: Provider, a: Article)
    ensures !a.description.Null? ==> BlurbAsWritten(a) == Returned(Blurb(a))
    ensures Blurb(a) == Blurb(a.(description := Str(TextOf(a.description))))
    ensures Keep(p, a) ==> Blurb(a) != ""
  {
  }

  // ---------------------------------------------------------------------
  // The adapters as written: a `null` description ends the call

  /** Some article of the run has a `null` description. */
  predicate NullIn(kept: seq<Article>)
  {
    exists a <- kept :: a.description.Null?
  }

  /** An article's item and line as the code computes them: the blurb is
      sliced while the item is built, so a `null` description raises before
      anything of the article is reported. */
  function ReportAsWritten(regionLabel: string, category: string, a: Article,
                           clock: string -> Instant, fmt: Formats): (r: Outcome<(NewsItem, string)>)
    ensures a.description.Null? ==> r == Raised(NullSlice)
    ensures !a.description.Null? ==> r == Returned(Report(regionLabel, category, a, clock, fmt))
  {
    var instant := clock(PublishedText(a));
    match BlurbAsWritten(a)
    case Raised(e) => Raised(e)
    case Returned(blurb) =>
      var item := Item(a, category, instant, blurb);
      Returned((item, Line(regionLabel, item, ArticleTrend(a), instant.minute, fmt)))
  }

  /** The article loop as written: the first report that raises ends it. */
  function ReportsAsWritten(kept: seq<Article>, report: Article -> Outcome<(NewsItem, string)>): Outcome<Contribution>
  {
    if |kept| == 0 then Returned(Contribution([], [], []))
    else
      match report(kept[0])
      case Raised(e) => Raised(e)
      case Returned(first) =>
        match ReportsAsWritten(kept[1..], report)
        case Raised(e) => Raised(e)
        case Returned(rest) => Returned(Contribution([first.0] + rest.items, [first.1] + rest.lines, []))
  }

  /** With reports that raise exactly on a `null` description and otherwise
      agree with `correct`, the article loop raises exactly when a kept
      article has a `null` description, and otherwise reports as the
      corrected loop does. */
  lemma {:induction false} ReportsRaise(kept: seq<Article>, report: Article -> Outcome<(NewsItem, string)>,
                                        correct: Article -> (NewsItem, string))
    requires forall a :: report(a) == if a.description.Null? then Raised(NullSlice) else Returned(correct(a))
    ensures ReportsAsWritten(kept, report) == if NullIn(kept) then Raised(NullSlice) else Returned(Reports(kept, correct))
  {
    if |kept| > 0 {
      ReportsRaise(kept[1..], report, correct);
      assert forall a :: a in kept <==> a == kept[0] || a in kept[1..];
    }
  }

  /** The body of the innermost loop as written: the `except` clause only
      catches request errors, so a raising article leaves the adapter. */
  function RequestStepAsWritten(p: Provider, regionId: string, country: string, category: string, outcome: NewsFetch,
                                clock: string -> Instant, fmt: Formats): (r: Outcome<Contribution>)
    ensures outcome.Articles? && NullIn(Kept(p, outcome.articles)) ==> r == Raised(NullSlice)
    ensures !(outcome.Articles? && NullIn(Kept(p, outcome.articles))) ==>
      r == Returned(RequestStep(p, regionId, country, category, outcome, clock, fmt))
  {
    if outcome.RequestFailed? then
      Returned(Contribution([], [], [Feedback(Warning, FailureText(p, regionId, country, category, outcome.reason))]))
    else
      var regionLabel := DataSources.RegionLabel(regionId);
      var report := (a: Article) => ReportAsWritten(regionLabel, category, a, clock, fmt);
      ReportsRaise(Kept(p, outcome.articles), report, (a: Article) => Report(regionLabel, category, a, clock, fmt));
      ReportsAsWritten(Kept(p, outcome.articles), report)
  }

  /** The two nested loops of a region as written: the first step that
      raises ends them. */
  function PassAsWritten(pairs: seq<(string, string)>, step: (string, string) -> Outcome<Contribution>): Outcome<Contribution>
  {
    if |pairs| == 0 then Returned(Contribution([], [], []))
    else
      match step(pairs[0].0, pairs[0].1)
      case Raised(e) => Raised(e)
      case Returned(first) =>
        match PassAsWritten(pairs[1..], step)
        case Raised(e) => Raised(e)
        case Returned(rest) => Returned(Combine(first, rest))
  }

  /** With steps that raise exactly on the `bad` pairs and otherwise agree
      with `correct`, the loops raise exactly when some pair is bad. */
  lemma {:induction false} PassRaise(pairs: seq<(string, string)>, step: (string, string) -> Outcome<Contribution>,
                                     bad: (string, string) -> bool, correct: (string, string) -> Contribution)
    requires forall c, k :: step(c, k) == if bad(c, k) then Raised(NullSlice) else Returned(correct(c, k))
    ensures PassAsWritten(pairs, step)
         == if exists i :: 0 <= i < |pairs| && bad(pairs[i].0, pairs[i].1) then Raised(NullSlice)
            else Returned(Pass(pairs, correct))
  {
    if |pairs| > 0 {
      PassRaise(pairs[1..], step, bad, correct);
      assert forall i :: 0 < i < |pairs| ==> pairs[i] == pairs[1..][i - 1];
      assert forall i :: 0 <= i < |pairs| - 1 ==> pairs[1..][i] == pairs[i + 1];
    }
  }

  /** The request of a pair is answered with a kept article whose
      description is `null`. */
  predicate HitsNull(p: Provider, key: string, fetch: Request -> NewsFetch, country: string, category: string)
  {
    var outcome := fetch(RequestOf(p, key, (country, category)));
    outcome.Articles? && NullIn(Kept(p, outcome.articles))
  }

  /** The step of a region as written. */
  function RegionStepAsWritten(p: Provider, key: string, regionId: string, fetch: Request -> NewsFetch,
                               clock: string -> Instant, fmt: Formats): (string, string) -> Outcome<Contribution>
  {
    (country: string, category: string) =>
      RequestStepAsWritten(p, regionId, country, category, fetch(Request(p, key, country, ApiCategory(p, category))), clock, fmt)
  }

  /** Some request of the region reaches a kept article with a `null`
      description. */
  predicate RegionHitsNull(p: Provider, key: string, regionId: string, categories: seq<string>, fetch: Request -> NewsFetch)
  {
    var pairs := Pairs(Countries(p, regionId), categories);
    exists i :: 0 <= i < |pairs| && HitsNull(p, key, fetch, pairs[i].0, pairs[i].1)
  }

  /** All requests of one region as written. */
  function RegionNewsAsWritten(p: Provider, key: string, regionId: string, categories: seq<string>,
                               fetch: Request -> NewsFetch, clock: string -> Instant, fmt: Formats): (r: Outcome<Contribution>)
    ensures RegionHitsNull(p, key, regionId, categories, fetch) ==> r == Raised(NullSlice)
    ensures !RegionHitsNull(p, key, regionId, categories, fetch) ==>
      r == Returned(RegionNews(p, key, regionId, categories, fetch, clock, fmt))
  {
    RegionRaise(p, key, regionId, categories, fetch, clock, fmt);
    PassAsWritten(Pairs(Countries(p, regionId), categories), RegionStepAsWritten(p, key, regionId, fetch, clock, fmt))
  }

  lemma RegionRaise(p: Provider, key: string, regionId: string, categories: seq<string>,
                    fetch: Request -> NewsFetch, clock: string -> Instant, fmt: Formats)
    ensures PassAsWritten(Pairs(Countries(p, regionId), categories), RegionStepAsWritten(p, key, regionId, fetch, clock, fmt))
         == if RegionHitsNull(p, key, regionId, categories, fetch) then Raised(NullSlice)
            else Returned(Pass(Pairs(Countries(p, regionId), categories), RegionStep(p, key, regionId, fetch, clock, fmt)))
  {
    RegionStepRaise(p, key, regionId, fetch, clock, fmt);
    PassRaise(Pairs(Countries(p, regionId), categories), RegionStepAsWritten(p, key, regionId, fetch, clock, fmt),
              (c, k) => HitsNull(p, key, fetch, c, k), RegionStep(p, key, regionId, fetch, clock, fmt));
  }

  /** The step of a region as written raises exactly on the pairs whose
      request reaches a `null` description, and otherwise is the corrected
      step. */
  lemma RegionStepRaise(p: Provider, key: string, regionId: string, fetch: Request -> NewsFetch,
                        clock: string -> Instant, fmt: Formats)
    ensures forall c, k ::
      (RegionStepAsWritten(p, key, regionId, fetch, clock, fmt)(c, k)
       == if HitsNull(p, key, fetch, c, k) then Raised(NullSlice) else Returned(RegionStep(p, key, regionId, fetch, clock, fmt)(c, k)))
  {
    forall c, k
      ensures RegionStepAsWritten(p, key, regionId, fetch, clock, fmt)(c, k)
        == if HitsNull(p, key, fetch, c, k) then Raised(NullSlice) else Returned(RegionStep(p, key, regionId, fetch, clock, fmt)(c, k))
    {
      var outcome := fetch(RequestOf(p, key, (c, k)));
      assert RegionStepAsWritten(p, key, regionId, fetch, clock, fmt)(c, k)
          == RequestStepAsWritten(p, regionId, c, k, outcome, clock, fmt);
      assert RegionStep(p, key, regionId, fetch, clock, fmt)(c, k)
          == RequestStep(p, regionId, c, k, outcome, clock, fmt);
    }
  }

  /** The region loop as written: the first region that raises ends it. */
  function CollectAsWritten(selected: seq<string>, pass: string -> Outcome<Contribution>): Outcome<Collected>
  {
    if |selected| == 0 then Returned(Collected([], [], map[]))
    else
      match pass(selected[0])
      case Raised(e) => Raised(e)
      case Returned(d) =>
        match CollectAsWritten(selected[1..], pass)
        case Raised(e) => Raised(e)
        case Returned(rest) => Returned(Prepend(selected[0], d, rest))
  }

  /** With passes that raise exactly on the `bad` regions and otherwise
      agree with `correct`, the region loop raises exactly when a selected
      region is bad. */
  lemma {:induction false} CollectRaise(selected: seq<string>, pass: string -> Outcome<Contribution>,
                                        bad: string -> bool, correct: string -> Contribution)
    requires forall r :: pass(r) == if bad(r) then Raised(NullSlice) else Returned(correct(r))
    ensures CollectAsWritten(selected, pass)
         == if exists i :: 0 <= i < |selected| && bad(selected[i]) then Raised(NullSlice)
            else Returned(Collect(selected, correct))
  {
    if |selected| > 0 {
      CollectRaise(selected[1..], pass, bad, correct);
      assert forall i :: 0 < i < |selected| ==> selected[i] == selected[1..][i - 1];
      assert forall i :: 0 <= i < |selected| - 1 ==> selected[1..][i] == selected[i + 1];
    }
  }

  /** The per-region pass of a call as written. */
  function PassOfAsWritten(p: Provider, key: string, categories: Option<seq<string>>, fetch: Request -> NewsFetch,
                           clock: string -> Instant, fmt: Formats): string -> Outcome<Contribution>
  {
    (regionId: string) => RegionNewsAsWritten(p, key, regionId, DataSources.SelectedCategories(categories), fetch, clock, fmt)
  }

  /** Some selected region reaches a kept article with a `null` description. */
  predicate NullReached(p: Provider, key: string, selected: seq<string>, categories: seq<string>, fetch: Request -> NewsFetch)
  {
    exists i :: 0 <= i < |selected| && RegionHitsNull(p, key, selected[i], categories, fetch)
  }

  /** Each region pass of a call as written raises exactly when the region
      reaches a `null` description, and otherwise is the corrected pass. */
  lemma PassOfRaise(p: Provider, key: string, categories: Option<seq<string>>, fetch: Request -> NewsFetch,
                    clock: string -> Instant, fmt: Formats)
    ensures forall r :: PassOfAsWritten(p, key, categories, fetch, clock, fmt)(r)
                     == if RegionHitsNull(p, key, r, DataSources.SelectedCategories(categories), fetch) then Raised(NullSlice)
                        else Returned(PassOf(p, key, categories, fetch, clock, fmt)(r))
  {
    var cats := DataSources.SelectedCategories(categories);
    forall r
      ensures PassOfAsWritten(p, key, categories, fetch, clock, fmt)(r)
           == if RegionHitsNull(p, key, r, cats, fetch) then Raised(NullSlice)
              else Returned(PassOf(p, key, categories, fetch, clock, fmt)(r))
    {
      assert PassOfAsWritten(p, key, categories, fetch, clock, fmt)(r) == RegionNewsAsWritten(p, key, r, cats, fetch, clock, fmt);
      assert PassOf(p, key, categories, fetch, clock, fmt)(r) == RegionNews(p, key, r, cats, fetch, clock, fmt);
    }
  }

  /** `fetch_newsapi_news` / `fetch_newsdata_news` as written: the call
      raises `TypeError` when it reaches a kept article whose description is
      `null`. */
  function FetchProviderNewsAsWritten(p: Provider, regions: Option<seq<string>>, categories: Option<seq<string>>,
                                      apiKey: Option<string>, env: string -> string, fetch: Request -> NewsFetch,
                                      clock: string -> Instant, fmt: Formats): (r: Outcome<SourceResult>)
    ensures ApiKey(apiKey, env, KeyVariable(p)) == "" ==> r == Returned(NewSourceResult().AddFeedback(Warning, MissingKey(p)))
  {
    var key := ApiKey(apiKey, env, KeyVariable(p));
    if key == "" then Returned(NewSourceResult().AddFeedback(Warning, MissingKey(p)))
    else Finish(CollectAsWritten(DataSources.SelectedRegions(regions), PassOfAsWritten(p, key, categories, fetch, clock, fmt)))
  }

  /** The tail of the adapter as written: an exception passes through, a
      finished region loop is assembled as before. */
  function Finish(o: Outcome<Collected>): (r: Outcome<SourceResult>)
    ensures r.Raised? <==> o.Raised?
    ensures o.Raised? ==> r.error == o.error
    ensures o.Returned? ==> r.value == Assemble(o.value)
  {
    match o
    case Raised(e) => Raised(e)
    case Returned(c) => Returned(Assemble(c))
  }

  /** Over passes that raise exactly on the `bad` regions, the adapter's
      tail raises exactly when a selected region is bad, and otherwise
      assembles the corrected region loop. */
  lemma FinishRaise(selected: seq<string>, pass: string -> Outcome<Contribution>,
                    bad: string -> bool, correct: string -> Contribution)
    requires forall r :: pass(r) == if bad(r) then Raised(NullSlice) else Returned(correct(r))
    ensures Finish(CollectAsWritten(selected, pass))
         == if exists i :: 0 <= i < |selected| && bad(selected[i]) then Raised(NullSlice)
            else Returned(Assemble(Collect(selected, correct)))
  {
    CollectRaise(selected, pass, bad, correct);
  }

  /** The adapter as written raises exactly when a selected region has an
      answered request with a kept article whose description is `null`;
      otherwise it returns what the corrected adapter returns. */
  lemma AsWrittenRaisesOnNull(p: Provider, regions: Option<seq<string>>, categories: Option<seq<string>>,
                              apiKey: Option<string>, env: string -> string, fetch: Request -> NewsFetch,
                              clock: string -> Instant, fmt: Formats)
    ensures var key := ApiKey(apiKey, env, KeyVariable(p));
      var r := FetchProviderNewsAsWritten(p, regions, categories, apiKey, env, fetch, clock, fmt);
      r == if key != "" && NullReached(p, key, DataSources.SelectedRegions(regions), DataSources.SelectedCategories(categories), fetch)
           then Raised(NullSlice)
           else Returned(FetchProviderNews(p, regions, categories, apiKey, env, fetch, clock, fmt))
  {
    var key := ApiKey(apiKey, env, KeyVariable(p));
    if key != "" {
      AsWrittenWithKey(p, key, DataSources.SelectedRegions(regions), categories, fetch, clock, fmt);
    }
  }

  /** With a key, the region loop as written raises exactly when it reaches
      a `null` description, and otherwise is assembled as the corrected one. */
  lemma AsWrittenWithKey(p: Provider, key: string, selected: seq<string>, categories: Option<seq<string>>,
                         fetch: Request -> NewsFetch, clock: string -> Instant, fmt: Formats)
    ensures Finish(CollectAsWritten(selected, PassOfAsWritten(p, key, categories, fetch, clock, fmt)))
         == if NullReached(p, key, selected, DataSources.SelectedCategories(categories), fetch) then Raised(NullSlice)
            else Returned(Assemble(Collect(selected, PassOf(p, key, categories, fetch, clock, fmt))))
  {
    var cats := DataSources.SelectedCategories(categories);
    PassOfRaise(p, key, categories, fetch, clock, fmt);
    FinishRaise(selected, PassOfAsWritten(p, key, categories, fetch, clock, fmt),
                (r: string) => RegionHitsNull(p, key, r, cats, fetch), PassOf(p, key, categories, fetch, clock, fmt));
  }

  /** A NewsData call for Europe and Energy whose one request is answered
      with a titled article with a `null` description raises. */
  lemma NullDescriptionEndsCall(fetch: Request -> NewsFetch, clock: string -> Instant, fmt: Formats)
    requires fetch(Request(NewsData, "k", "gb", "science")) == Articles([Article(Str("Markets rally"), Null, Absent, None, None)])
    ensures FetchProviderNewsAsWritten(NewsData, Some(["europe"]), Some(["Energy"]), Some("k"), _ => "", fetch, clock, fmt)
         == Raised(NullSlice)
  {
    assert ApiKey(Some("k"), _ => "", KeyVariable(NewsData)) == "k";
    assert DataSources.SelectedRegions(Some(["europe"])) == ["europe"];
    EuropeEnergyReachesNull(fetch);
    AsWrittenRaisesOnNull(NewsData, Some(["europe"]), Some(["Energy"]), Some("k"), _ => "", fetch, clock, fmt);
  }

  /** The one request of that call is the one answered with the article. */
  lemma EuropeEnergyReachesNull(fetch: Request -> NewsFetch)
    requires fetch(Request(NewsData, "k", "gb", "science")) == Articles([Article(Str("Markets rally"), Null, Absent, None, None)])
    ensures NullReached(NewsData, "k", ["europe"], DataSources.SelectedCategories(Some(["Energy"])), fetch)
  {
    var a := Article(Str("Markets rally"), Null, Absent, None, None);
    EuropeEnergyRequest();
    assert Pairs(["gb"], ["Energy"])[0] == ("gb", "Energy");
    assert a in Window(NewsData, [a]) && Keep(NewsData, a);
    assert a in Kept(NewsData, [a]);
    assert HitsNull(NewsData, "k", fetch, "gb", "Energy");
    assert RegionHitsNull(NewsData, "k", "europe", ["Energy"], fetch);
  }

  /** NewsData asks Europe as Great Britain and Energy as "science". */
  lemma EuropeEnergyRequest()
    ensures DataSources.SelectedCategories(Some(["Energy"])) == ["Energy"]
    ensures Countries(NewsData, "europe") == ["gb"]
    ensures ApiCategory(NewsData, "Energy") == "science"
  {
    assert Keys(NewsDataCountries) == ["asia", "australia", "europe"];
    assert NewsDataCategories[2] == ("Energy", "science");
  }
}
