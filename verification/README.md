# AI Market Companion — a Dafny model of its data core

The AI Market Companion gathers market context for a chat assistant. It
pulls three families of data:

- FRED economic series;
- regional market indicators, from EODHD or from a synthetic table;
- public news, from NewsAPI.org, NewsData.io or a synthetic table.

Each adapter turns its data into a `SourceResult`: context lines, user
feedback `(level, message)`, time series and provider extras. News text is
scored by a keyword sentiment analyser. Its three axis scores select a row
of a truth table that decides a bullish or bearish trend and a rate. The
context builder merges the per-source lines into one prompt text, and a
keyword filter can narrow the lines first.

This project models that core as immutable Dafny datatypes and pure
functions, and proves what the code promises about them.

The modules follow the repository's files:

| module | file |
|---|---|
| `Dicts` | Python's insertion-ordered dict literals (a sequence of pairs), `get`, `keys`, `values` |
| `Text` | `lower`/`upper`/`title` on ASCII and Latin-1, `in` on strings, `join`, slicing |
| `Models` | core/models.py, plus the shared feedback levels, escaping exceptions and indicator lines |
| `DataSources` | config/data_sources.py |
| `SourceRegistry` | core/source_registry.py |
| `SentimentAnalyzer` | processors/sentiment_analyzer.py |
| `SentimentExample` | processors/sentiment_analyzer.py, applied to one headline |
| `KeywordFilter` | processors/keyword_filter.py |
| `ContextBuilder` | core/context_builder.py |
| `FredService` | services/fred_service.py |
| `MacroService` | services/macro_service.py |
| `MockMacroService` | services/mock_macro_service.py |
| `NewsService` | services/news_service.py |
| `MockNewsService` | services/mock_news_service.py |

What the model does not compute is passed in as a parameter:

- Every remote call is a function from the request's varying parameters to its outcome:
  - FRED: from the series id to loaded / rejected / network failure;
  - EODHD: from the token and symbol to a JSON answer / request failure;
  - news: from the request to articles / request failure.
  Because each is a function, the same request gets the same answer throughout one adapter call. That is an assumption of the model, listed under "Left out".
- `os.getenv` is a function `env` from a variable name to its value (`""` when unset).
- The clock that turns a news publication date into text is a function `clock`. It stands for `datetime.fromisoformat` with its `datetime.now()` fallbacks.
- Today's date (the EODHD row date fallback) is a parameter `today`.
- Number and date rendering (`:.2f`, `:+.2f`, `:,.1f`, `round`, `strftime`) is a value `fmt: Formats` of functions.
- A value the code reads out of a JSON object may be absent. `Option` models that, and `NewsService.Field` adds JSON `null` for the article fields the code treats differently.
- An exception that escapes an adapter is an `Outcome` value, `Raised(KeyError …)` or `Raised(TypeError …)`.

## Model

| member | source | states |
|---|---|---|
| Models.NewSourceResult | core/models.py:13-18 | A fresh result has no context lines, no feedback, no time series and no extras. |
| Models.AddLine | core/models.py:15 | Appending a context line adds it at the end and leaves feedback, time series and extras unchanged. |
| Models.AddFeedback | core/models.py:16 | Feedback is a list of (level, message) pairs in append order; appending changes nothing else. |
| Models.CountLevelAppend | core/models.py:16 | Counting the entries of one level distributes over concatenation of feedback lists. |
| Models.WarningsOnly | services/news_service.py:127-131 | A feedback list of warnings only counts every entry as a warning and none as info. |
| Models.InfoTail | services/news_service.py:139-142 | Warnings followed by the no-data entry exactly when there are no lines: one info entry exactly when there are no lines, and every warning kept. |
| Models.ApiKey | services/news_service.py:20 | The key argument is used when it is a non-empty string; otherwise the environment variable's value is used. |
| Models.DiffText | services/mock_macro_service.py:84-89 | The change text is empty exactly when the current or the previous value is missing; otherwise it starts with " (Δ ". |
| Models.MacroLine | services/mock_macro_service.py:91-93 | An indicator line starts with the region's label. |
| Models.MacroLines | services/mock_macro_service.py:83-93 | One line per row, in row order, each the row's indicator line. |
| DataSources.FredSeriesShape | config/data_sources.py:3-19 | Three series with distinct names and distinct series ids; each has a known value format (billions, percent or index) and a non-empty description. |
| DataSources.DefaultFredSelectionIsFirstTwo | config/data_sources.py:21 | The default selection is the first two catalogue names in insertion order, so both are catalogued. |
| DataSources.RegionsShape | config/data_sources.py:24-28 | The regions are exactly asia, australia and europe, in that order, without repeats. |
| DataSources.NewsCategoriesDistinct | config/data_sources.py:30-36 | There are five news categories, pairwise distinct. |
| DataSources.OrAll | services/news_service.py:28-29 | An absent or empty selection means every choice in catalogue order; any other selection is used as given. |
| DataSources.SelectedRegions | services/macro_service.py:27 | An absent or empty region selection means all three catalogue regions; otherwise the given regions. |
| DataSources.SelectedCategories | services/news_service.py:29 | An absent or empty category selection means all five categories; otherwise the given ones. |
| DataSources.RegionLabel | services/macro_service.py:90 | asia, australia and europe get their catalogue labels; any other region id gets its title-cased form. |
| DataSources.TaggedMacroLines | services/macro_service.py:89-100 | One line per tagged row, under its region's label, in order. |
| DataSources.TaggedMacroLinesAppend | services/macro_service.py:89-100 | The lines of a concatenation are the concatenated lines. |
| Dicts.Entries | services/mock_news_service.py:78 | A region the table does not know has no entries; a known one has exactly its stored list. |
| Dicts.Tag | services/mock_macro_service.py:83 | Each entry is paired with its region, in order. |
| SourceRegistry.DefaultConfig | core/source_registry.py:7-12 | A config built without the flag does not require an API key. |
| SourceRegistry.RegistryShape | core/source_registry.py:15-34 | The registry holds fred, macro_regional and news_public in that order; each entry's id equals its key and each requires an API key. |
| SourceRegistry.ListSources | core/source_registry.py:37-38 | One config per registry entry, in insertion order. |
| SourceRegistry.GetSourceConfig | core/source_registry.py:41-42 | A registered id returns its entry; any other id raises KeyError naming it. |
| SourceRegistry.ListAndLookupAgree | core/source_registry.py:37-42 | Every listed config is found again by its id, and every config found by lookup is in the listing. |
| SentimentAnalyzer.Present | processors/sentiment_analyzer.py:53-54 | The hit count is at most the number of keywords; it is zero exactly when no keyword occurs, and full exactly when all occur. |
| SentimentAnalyzer.AxisScore | processors/sentiment_analyzer.py:60-62 | An axis score lies in [0, 1]; it is positive exactly when positive hits outnumber negative ones, and 1 exactly when there are positive hits and no negative hit. |
| SentimentAnalyzer.RatioFacts | processors/sentiment_analyzer.py:60-62 | Over a positive total, the axis ratio (positive minus negative hits) / total is at most 1 exactly when the difference does not exceed the total. It is positive exactly when the difference is, and 1 exactly when the difference is the whole total. |
| SentimentAnalyzer.SentimentValues | processors/sentiment_analyzer.py:38-64 | All three scores lie in [0, 1], their sum in [0, 3]; each axis is positive exactly when more of its positive than of its negative keywords occur in the lower-cased text. |
| SentimentAnalyzer.Label | processors/sentiment_analyzer.py:77-83 | The label is positive exactly above 0.3, negative exactly below 0.1, and neutral in between. |
| SentimentAnalyzer.LabelMonotone | processors/sentiment_analyzer.py:77-83 | A larger sum never gets a lower label. |
| SentimentAnalyzer.AnalyzeNews | processors/sentiment_analyzer.py:67-91 | The score is p + q + s, in [0, 3]; the axes are the built-in lexicon's scores; the label is the label of the score. |
| SentimentAnalyzer.FirstMatch | processors/sentiment_analyzer.py:126-137 | The row found matches the bits and no earlier row does; nothing is found exactly when no row matches. |
| SentimentAnalyzer.Bin | processors/sentiment_analyzer.py:121-123 | A bit is 0 or 1, and 1 exactly when the score is positive. |
| SentimentAnalyzer.RowBullish | processors/sentiment_analyzer.py:137-142 | A row with no scenario columns is bearish; a row whose first scenario column is 1 is bullish; a bullish row has some scenario column equal to 1. |
| SentimentAnalyzer.Rate | processors/sentiment_analyzer.py:145-150 | Bullish gives base + base × sum, bearish base − base × sum; a zero sum keeps the base; with a non-negative base and sum, bullish never lowers it and bearish never raises it. |
| SentimentAnalyzer.TrendFromAxes | processors/sentiment_analyzer.py:117-162 | The trend reports the scores, their bits and their sum. The tendency is ALZISTA exactly when bullish. With a matching row, the first match's scenario columns decide; with none, the sum must exceed 0.5. The rate follows the rate rule. |
| SentimentAnalyzer.InferMarketTrend | processors/sentiment_analyzer.py:94-163 | The scores are the built-in lexicon's, each in [0, 1], and the sum is p + q + s. The bits are 1 exactly on positive scores. The tendency is ALZISTA exactly when bullish and BAJISTA otherwise. For any table, the first matching row decides, and with no match the sum must exceed 0.5. With no table given, the built-in one makes the text bullish exactly when the sum is positive, and a bearish text keeps the base rate. The rate is base ± base × sum. |
| SentimentAnalyzer.RateSplit | processors/sentiment_analyzer.py:145-150 | The rate is the base plus base × sum when bullish and the base minus base × sum otherwise. |
| SentimentAnalyzer.RowDecides | processors/sentiment_analyzer.py:132-142 | When row i is the first match, the trend is bullish exactly when some scenario column of row i holds 1. |
| SentimentAnalyzer.FirstRowWins | processors/sentiment_analyzer.py:136-137 | A matching row in front of a table decides, whatever rows follow. |
| SentimentAnalyzer.MatchDecides | processors/sentiment_analyzer.py:132-142 | The row the lookup finds is in the table and decides the trend. |
| SentimentAnalyzer.FallbackRule | processors/sentiment_analyzer.py:132-134 | With no matching row, the trend is bullish exactly when the sum exceeds 0.5. |
| SentimentAnalyzer.TruthTableRow | processors/sentiment_analyzer.py:25-35 | Row j of the built-in table holds the bits of j in binary order and four 0/1 scenario columns; only row 0 is bearish. |
| SentimentAnalyzer.UniqueMatch | processors/sentiment_analyzer.py:126-137 | A row that is the only one with its bits is the row the lookup finds. |
| SentimentAnalyzer.DefaultLookup | processors/sentiment_analyzer.py:25-35 | Every bit pattern has exactly one row in the built-in table, row 4p + 2q + s, so the lookup never falls back. |
| SentimentAnalyzer.DefaultTableRule | processors/sentiment_analyzer.py:126-150 | With the built-in table: bullish exactly when the sum is positive; the rate is base × (1 + sum) in every case; it never drops below a non-negative base. |
| SentimentAnalyzer.RateDirection | processors/sentiment_analyzer.py:145-150 | For any table and a non-negative base, the rate is at least the base when bullish and at most the base when bearish. |
| SentimentAnalyzer.PresentDependsOnPresence | processors/sentiment_analyzer.py:53-54 | Two texts that contain the same keywords get the same counts: only presence matters, not repetition. |
| SentimentAnalyzer.PresenceDecides | processors/sentiment_analyzer.py:49-62 | Two texts whose lower-cased forms contain the same lexicon words get the same three scores. |
| SentimentAnalyzer.CaseIgnored | processors/sentiment_analyzer.py:49 | A text and its lower-case form score alike, for any lexicon. |
| SentimentAnalyzer.NoHitsScoreZero | processors/sentiment_analyzer.py:60-62 | For any lexicon, a text without any of its keywords scores 0 on every axis, with no division by zero. |
| SentimentAnalyzer.NoKeywordText | processors/sentiment_analyzer.py:60-162 | A keyword-free text scores (0, 0, 0) and is labelled negative; the built-in table's all-zero row (not the fallback) makes it BAJISTA at the base rate. |
| SentimentAnalyzer.ZeroScoresBearish | processors/sentiment_analyzer.py:77-162 | All-zero scores give the negative label, the all-zero row, and a bearish trend at the base rate. |
| SentimentAnalyzer.ZeroSumBearish | processors/sentiment_analyzer.py:145-162 | A trend whose sum is 0, built under the rule "bullish exactly when the sum is positive" with its rate from the rate rule, is BAJISTA at the base rate. |
| SentimentAnalyzer.EmptyText | processors/sentiment_analyzer.py:49-64 | The empty text scores (0, 0, 0), is labelled negative and is bearish. |
| SentimentAnalyzer.NonEmptyWords | processors/sentiment_analyzer.py:7-20 | Every lexicon keyword is non-empty. |
| SentimentAnalyzer.UnemploymentAlsoCountsEmployment | processors/sentiment_analyzer.py:17-18 | A text mentioning "desempleo" also contains "empleo", so it gets both a positive and a negative social hit. |
| SentimentAnalyzer.SharedNegatives | processors/sentiment_analyzer.py:10-18 | "crisis" is a negative keyword on both the political and the social axis, so one mention hits both. |
| SentimentAnalyzer.OnlyFirstAxisPositive | processors/sentiment_analyzer.py:53-62 | For any lexicon, a text that hits only first-axis positive keywords scores (1, 0, 0). |
| SentimentAnalyzer.OnlyPoliticalPositives | processors/sentiment_analyzer.py:31 | A text whose only keywords are political positives scores (1, 0, 0), is labelled positive, is bullish and doubles the rate. |
| SentimentAnalyzer.PoliticalOnlyBullish | processors/sentiment_analyzer.py:31 | Scores (1, 0, 0) give the positive label, a bullish trend and a doubled rate. |
| SentimentAnalyzer.PoliticalOnlyTrend | processors/sentiment_analyzer.py:31 | Under the built-in table, scores (1, 0, 0) are bullish and double the base rate. |
| SentimentAnalyzer.PoliticalOnlyExample | processors/sentiment_analyzer.py:31 | Scores (1, 0, 0) at base 1 give ALZISTA at rate 2. |
| SentimentExample.AcuerdoExample | processors/sentiment_analyzer.py:7-163 | "acuerdo y cooperación en la región" scores p = 1, q = s = 0, is labelled positive, comes out ALZISTA and turns base rate 1 into 2. |
| SentimentExample.AcuerdoOnlyPolitical | processors/sentiment_analyzer.py:7-20 | That text contains a political-positive keyword, and no keyword of the other five lists, in its lower-case form. |
| KeywordFilter.Normalize | processors/keyword_filter.py:21 | The normalised keywords are non-empty and lower-case, and each non-empty keyword's lower-case form is among them. |
| KeywordFilter.NormalizedComesFrom | processors/keyword_filter.py:21 | Every normalised keyword is the lower-case form of some non-empty keyword. |
| KeywordFilter.NormalizeIdempotent | processors/keyword_filter.py:21 | Normalising twice is normalising once. |
| KeywordFilter.Hit | processors/keyword_filter.py:32-34 | No keyword means no hit; a line whose lower-case form is itself a keyword hits; a hit needs a keyword no longer than the line. |
| KeywordFilter.Keep | processors/keyword_filter.py:28-36 | The loop keeps at most its input's lines, and every line it keeps hits. |
| KeywordFilter.FilterLinesByKeywords | processors/keyword_filter.py:21-36 | The output is no longer than the input; with some non-empty keyword, every output line contains one of the lower-cased keywords. |
| KeywordFilter.NoKeywordsKeepsAll | processors/keyword_filter.py:21-25 | When every keyword is empty (or there are none), the lines come back unchanged. |
| KeywordFilter.KeepIsSubsequence | processors/keyword_filter.py:28-36 | The matching loop keeps a subsequence of its input, in input order. |
| KeywordFilter.FilterIsSubsequence | processors/keyword_filter.py:21-36 | The output is a subsequence of the input, in the input's order. |
| KeywordFilter.KeepMembers | processors/keyword_filter.py:30-35 | Every kept line is an input line that hits, and every input line that hits is kept. |
| KeywordFilter.KeepAllHits | processors/keyword_filter.py:30-35 | When every line hits, the loop keeps all of them. |
| KeywordFilter.FilterKeepsExactlyHits | processors/keyword_filter.py:21-35 | With some non-empty keyword, a line is kept exactly when its lower-case form contains some keyword's lower-case form. |
| KeywordFilter.FilterIdempotent | processors/keyword_filter.py:21-36 | Filtering the output again with the same keywords changes nothing. |
| KeywordFilter.LineCaseIrrelevant | processors/keyword_filter.py:32-34 | Two lines with the same lower-case text are both kept or both dropped. |
| KeywordFilter.KeywordCaseIrrelevant | processors/keyword_filter.py:21 | Filtering by the normalised keywords gives the same output as filtering by the originals. |
| ContextBuilder.NonEmpty | core/context_builder.py:23-24 | Every kept source has lines and comes from the input, and every input source with lines is kept. Nothing is kept exactly when every source is empty. |
| ContextBuilder.NonEmptyAppend | core/context_builder.py:21-24 | Filtering a concatenation filters each run and keeps the runs in order, so kept sources keep their relative order. |
| ContextBuilder.Header | core/context_builder.py:26 | A header is "Fuente: " followed by the source name upper-cased character by character. |
| ContextBuilder.SourceChunks | core/context_builder.py:22-27 | A source adds nothing exactly when it has no lines. Otherwise it adds its body, its lines joined by newlines, as the last chunk, preceded by its header when headers are on. |
| ContextBuilder.Chunks | core/context_builder.py:20-27 | The chunk list has one chunk per non-empty source without headers and two with headers. |
| ContextBuilder.ComposeContext | core/context_builder.py:19-28 | Without headers, the text is the non-empty sources' bodies joined by blank lines. With headers, it is each non-empty source's header followed by its body, in source order, joined by blank lines. |
| ContextBuilder.BodiesChunks | core/context_builder.py:22-27 | Without headers, the chunk list is the bodies of the non-empty sources. |
| ContextBuilder.HeadedChunks | core/context_builder.py:22-27 | With headers, the chunk list is header, body, header, body… over the non-empty sources. |
| ContextBuilder.Bodies | core/context_builder.py:27 | Each source's body is its lines joined by single newlines. |
| ContextBuilder.ChunksAppend | core/context_builder.py:21 | Chunks of a concatenation are the concatenated chunks, so sources keep their relative order. |
| ContextBuilder.EmptySourcesVanish | core/context_builder.py:22-24 | A source without lines contributes nothing, wherever it stands. |
| ContextBuilder.ComposeWithoutHeaders | core/context_builder.py:25-28 | Without headers, the output is exactly the non-empty bodies joined by blank lines. |
| ContextBuilder.Headed | core/context_builder.py:25-27 | Two chunks per source: its header, then its body. |
| ContextBuilder.ComposeWithHeaders | core/context_builder.py:25-28 | With headers, every non-empty source contributes its header chunk and then its body chunk, in source order, all joined by blank lines. |
| ContextBuilder.HeadedAt | core/context_builder.py:25-27 | The k-th non-empty source owns chunk 2k, "Fuente: " plus its upper-cased name, and chunk 2k+1, its body. |
| ContextBuilder.ComposeEmptyIff | core/context_builder.py:20-28 | An input whose sources are all empty, the empty input included, gives ""; with headers on, that is the only way to get "". |
| ContextBuilder.ComposeAppend | core/context_builder.py:21-28 | The text of two runs of sources is the first's and the second's separated by one blank line; a run that contributes nothing leaves the other's text unchanged. |
| ContextBuilder.ComposeSingleSource | core/context_builder.py:25-28 | One source with lines gives its upper-cased header, a blank line, then its lines one per line. |
| ContextBuilder.ComposeExample | core/context_builder.py:4-28 | The input A → ["x"], B → [] gives "Fuente: A\n\nx": a header block for A only. |
| FredService.ErrorDetail | services/fred_service.py:165-178 | Without a response the detail is empty; a non-empty detail is a truthy error_message or message field, or the response text. |
| FredService.RejectionMessage | services/fred_service.py:161-184 | The message is the key-format hint exactly when the detail mentions api_key in any case; otherwise it is the rejection naming the series. |
| FredService.FormatValue | services/fred_service.py:19-26 | percent gives two decimals with %, billions gives $, a grouped one-decimal value and B, index gives two decimals, and any other format gives a grouped two-decimal value. |
| FredService.SeriesSummary | services/fred_service.py:70-96 | The line starts with the name, the series id and the latest value. With at least two observations it holds the change sentence. It ends with a space and the description. |
| FredService.ThreeParts | services/fred_service.py:75-95 | A three-part text starts with its first part, ends with its last, and contains its middle. |
| FredService.Marked | services/fred_service.py:91-93 | A marker inside the middle part of a text is contained in it. |
| FredService.LatestChange | services/fred_service.py:81-88 | A change exists exactly when there are at least two observations. It carries the difference between the last two values. It has a percentage exactly when the earlier value is non-zero, and that percentage times the earlier value is 100 times the difference. |
| FredService.MetricSnapshot | services/fred_service.py:101-129 | An empty frame gives {}. Otherwise the card has title, value, date and description, in that order, plus delta_text and delta_pct exactly when there are at least two observations. delta_pct is empty exactly when the earlier value is 0. |
| FredService.Contribute | services/fred_service.py:160-215 | Each series yields exactly one line or one feedback entry. A rejection or network failure gives one error entry and stores nothing. A loaded frame, even an empty one, is stored; it gives an info entry when empty and a line otherwise. |
| FredService.Apply | services/fred_service.py:185-215 | A series' contribution is appended to the lines and feedback, and its payload is stored under the series name; extras are untouched. |
| FredService.FredStep | services/fred_service.py:185-215 | For every series, the step gives exactly one line or one feedback entry, and stores a payload exactly when the series' id loads. |
| FredService.Loop | services/fred_service.py:147-215 | An empty selection returns the running result. A loop that returns only extends the lines and the feedback, and leaves the extras alone. |
| FredService.CollectFredData | services/fred_service.py:131-226 | An empty selection gives exactly one info entry. The call raises KeyError exactly when some selected name is not catalogued, naming the first such name. |
| FredService.FirstUnknown | services/fred_service.py:147-148 | The position found holds the first name the catalogue lacks. |
| FredService.LoopStep | services/fred_service.py:147-215 | One loop turn over a catalogued name applies that name's contribution, then continues with the rest. |
| FredService.LoopRaises | services/fred_service.py:147-148 | The loop raises exactly when some name is not catalogued, on the first such name. |
| FredService.LoopFlattens | services/fred_service.py:147-215 | Over a catalogued selection, the lines are every name's lines in selection order, whatever earlier names did; extras are untouched. |
| FredService.LoopFeedback | services/fred_service.py:147-215 | Over a catalogued selection, the feedback is every name's entries in selection order. |
| FredService.LoopStores | services/fred_service.py:199-200 | A series is stored exactly under the names whose fetch loaded, besides those already stored. |
| FredService.LoopStoresPayload | services/fred_service.py:199-200 | Each stored series is the payload of its name's contribution. |
| FredService.LoopKeeps | services/fred_service.py:147-215 | A stored series survives the rest of the loop when the rest never names it. |
| FredService.Failures | services/fred_service.py:160-196 | The failed fetches are at most the selected names. |
| FredService.OneEntryPerName | services/fred_service.py:147-215 | Lines plus feedback entries number exactly the selected names; fewer entries than names means some fetch loaded. |
| FredService.ContributionLevels | services/fred_service.py:160-210 | One series' feedback holds no warning, and one error exactly when its fetch failed. |
| FredService.FeedbackLevels | services/fred_service.py:160-210 | The feedback holds no warning and one error per failed fetch. |
| FredService.CollectFredDataSpec | services/fred_service.py:131-226 | For a catalogued non-empty selection: the lines and feedback are the per-series ones, one per series, in order. Exactly the loaded series are stored, empty frames included. Extras stay empty. The trailing warning never fires. |
| FredService.StoredPayload | services/fred_service.py:199-200 | A stored series pairs the catalogue metadata with the loaded frame. |
| FredService.DefaultSelectionNeverRaises | services/fred_service.py:147-148 | Collecting the default selection never raises. |
| MacroService.Symbols | services/macro_service.py:32-39 | A known region gets its own symbol list; any other region gets ["SPY.US"]. |
| MacroService.EffectiveKey | services/macro_service.py:19 | The key argument when non-empty, the EODHD_API_KEY variable otherwise. |
| MacroService.Close | services/macro_service.py:62-63 | A record's close is its value, or 0 when absent. |
| MacroService.FailureText | services/macro_service.py:83-86 | A failure warning names the symbol after "Error al obtener datos de EODHD para ". |
| MacroService.ChangePct | services/macro_service.py:64-65 | With a positive earlier price, the change is 100 × (current − previous) / previous and is positive exactly when the price rose. Otherwise it is 0. |
| MacroService.Signal | services/macro_service.py:67-72 | Positive momentum exactly above 1 %, negative pressure exactly below −1 %, neutral in between. |
| MacroService.QuoteRow | services/macro_service.py:59-81 | The row names the symbol and USD. It takes the latest record's date, or today when that is absent. Prices are rounded to cents. The previous record is the second one, or the latest again when alone, which gives a neutral signal. |
| MacroService.SymbolStep | services/macro_service.py:53-87 | A failed request gives exactly one warning naming the symbol. A non-empty record list gives exactly its row. Anything else adds nothing. |
| MacroService.SilentAnswers | services/macro_service.py:58 | A body that is not a list, or an empty list, adds no row and no feedback. |
| MacroService.UnknownRegionUsesSpy | services/macro_service.py:39 | A region outside asia, australia and europe is quoted through SPY.US alone. |
| MacroService.FailedSymbols | services/macro_service.py:83-87 | The failed symbols are requested symbols whose request failed. |
| MacroService.RegionPass | services/macro_service.py:42-87 | One warning per failed request, at most one row per symbol, warnings only; a region whose every request fails has no rows. |
| MacroService.RegionPassContents | services/macro_service.py:42-87 | The rows are exactly the rows of the symbols answered with records, in symbol order. The warnings are exactly one per failed request, in symbol order, each naming its symbol. |
| MacroService.RowsOf | services/macro_service.py:39-87 | A region's rows are the rows of its symbols answered with records, in symbol order. |
| MacroService.CollectLines | services/macro_service.py:38-100 | The lines are one per row, ordered by selected region and then by symbol, each under its region's label. |
| MacroService.CollectRegions | services/macro_service.py:38-100 | The tables hold exactly the selected regions with rows, each with its rows. No lines means no tables. All feedback is warnings. |
| MacroService.CollectCounts | services/macro_service.py:38-100 | One line per collected row and one warning per failed request. |
| MacroService.FetchEodhdMacro | services/macro_service.py:14-110 | Without a key, the result is exactly one warning and nothing else; no time series is ever stored. |
| MacroService.FetchRegionalMacro | services/macro_service.py:113-121 | The regional fetch is the EODHD fetch; without a key it gives only one warning. |
| MacroService.FetchTables | services/macro_service.py:89-103 | With a key, macro_tables is present exactly when there are lines, and holds only selected regions that produced rows. |
| MacroService.FetchFeedback | services/macro_service.py:83-108 | With a key: one info entry exactly when there are no lines, one warning per failed request, one line per row. |
| MockMacroService.Walk | services/mock_macro_service.py:74-93 | The tables hold exactly the selected regions with rows, each with its rows; no lines exactly when no tables. |
| MockMacroService.FetchRegionalMacro | services/mock_macro_service.py:69-106 | No time series. macro_tables is present exactly when there are lines. The feedback is the single info entry exactly when there are no lines, and is empty otherwise. |
| MockMacroService.WalkLines | services/mock_macro_service.py:74-93 | The lines are exactly one per row of the selected regions, ordered by region and then by row. |
| MockMacroService.SelectedRowsAppend | services/mock_macro_service.py:74 | The rows of two selections in a row are the rows of each, in order. |
| MockMacroService.SkipRows | services/mock_macro_service.py:75-77 | An unknown region in a selection adds no rows. |
| MockMacroService.UnknownRegionSkipped | services/mock_macro_service.py:75-77 | An unknown region, wherever it stands, adds no lines and no table. |
| MockMacroService.SyntheticShape | services/mock_macro_service.py:11-66 | The synthetic regions are the catalogue's three, with two rows each, and every row carries both values, so every line has its change text. |
| MockMacroService.FetchSpec | services/mock_macro_service.py:69-96 | The lines are one per row of the selection (all data regions when none is given), in order. The tables hold exactly the selected regions that have rows. |
| MockNewsService.MinuteText | services/mock_news_service.py:88-90 | For a UTC ISO timestamp, the minute text is its date, a space, and its hour and minute. |
| MockNewsService.MockLine | services/mock_news_service.py:89-90 | A line starts with the region's label, " · ", the item's category and " · ". |
| MockNewsService.Kept | services/mock_news_service.py:79-81 | An item is kept exactly when it is in the region's items and its category is selected. |
| MockNewsService.KeptAppend | services/mock_news_service.py:79-81 | The filter distributes over concatenation, so kept items stay in data order. |
| MockNewsService.KeptSingle | services/mock_news_service.py:80 | A single item is kept exactly when its category is selected. |
| MockNewsService.KeptIdempotent | services/mock_news_service.py:79-81 | Filtering twice by the same categories changes nothing. |
| MockNewsService.Walk | services/mock_news_service.py:77-91 | The news map holds exactly the selected regions with kept items, each with its kept items; no lines exactly when no news. |
| MockNewsService.RegionLines | services/mock_news_service.py:87-91 | One line per kept item, in order, each the item's line. |
| MockNewsService.FetchMockNews | services/mock_news_service.py:68-104 | No time series. news is present exactly when there are lines. The feedback is the single info entry exactly when there are no lines, and is empty otherwise. |
| MockNewsService.TaggedLines | services/mock_news_service.py:86-91 | One line per tagged item, under its region's label. |
| MockNewsService.TaggedLinesAppend | services/mock_news_service.py:87-91 | The lines of a concatenation are the concatenated lines. |
| MockNewsService.WalkLines | services/mock_news_service.py:77-91 | The lines are exactly one per kept item, ordered by selected region and then by data order. |
| MockNewsService.SelectedItemsAppend | services/mock_news_service.py:77 | The kept items of two selections in a row are the kept items of each, in order. |
| MockNewsService.SkipItems | services/mock_news_service.py:78-83 | An unknown region in a selection adds no items. |
| MockNewsService.UnknownRegionSkipped | services/mock_news_service.py:78-85 | An unknown region, wherever it stands, adds no lines and no news entry. |
| MockNewsService.FetchSpec | services/mock_news_service.py:72-94 | The lines are one per kept item of the selection, with all data regions and all five categories by default. The news map holds exactly the selected regions with kept items, each with them. |
| MockNewsService.SyntheticShape | services/mock_news_service.py:10-65 | The synthetic regions are the catalogue's three, and every synthetic item has one of the five categories. |
| MockNewsService.SyntheticTimestamps | services/mock_news_service.py:10-65 | Every synthetic timestamp is a well-formed UTC instant, YYYY-MM-DDTHH:MM:SSZ. |
| NewsService.TextOf | services/news_service.py:88 | An absent or null field reads as ""; a string reads as itself; the text is non-empty exactly when the field is truthy. |
| NewsService.KeyVariable | services/news_service.py:20 | The variable name ends in _KEY, and is NEWSAPI_KEY exactly for NewsAPI. |
| NewsService.MissingKey | services/news_service.py:21-26 | The missing-key warning names the provider's key variable. |
| NewsService.Keep | services/news_service.py:73-75 | A kept article has a non-empty string title. "[Removed]" is dropped by NewsAPI and kept by NewsData. NewsData keeps exactly the truthy titles. |
| NewsService.ApiCategory | services/news_service.py:32-38 | A known category maps to its provider category; any other maps to "business". |
| NewsService.Countries | services/news_service.py:41-56 | A known region gets its countries. An unknown one is asked as ["us"]. NewsData asks exactly one country per region. |
| NewsService.Window | services/news_service.py:204-205 | The articles looked at are a prefix: all of them for NewsAPI, the first five for NewsData. |
| NewsService.Filter | services/news_service.py:73-75 | An article is kept exactly when it is in the response and has a truthy title that is, for NewsAPI, not "[Removed]". |
| NewsService.Kept | services/news_service.py:205-207 | The kept articles are the window's articles that pass the filter; NewsData keeps at most five. |
| NewsService.FullText | services/news_service.py:87-89 | The scored text starts with the title and is as long as the title, one space and the description read with null as "". |
| NewsService.BlurbAsWritten | services/news_service.py:104 | As written: a null description raises TypeError. A truthy one gives its first 200 characters. An absent or empty one gives the title. |
| NewsService.Blurb | services/news_service.py:104 | Corrected: a truthy description gives its first 200 characters, which are non-empty. Anything else, null included, gives the title. |
| NewsService.PublishedText | services/news_service.py:77 | The publication text is the field's string, or "" when absent or null. |
| NewsService.ArticleTrend | services/news_service.py:96-113 | Every trend field (p, q, s, sum, tendency, bullish flag, rate) is the one the sentiment analyzer gives the scored text at base rate 1. The tendency is ALZISTA exactly when bullish. The sum is p + q + s. The text is bullish exactly when the sum is positive. The rate is 1 + sum when bullish and 1 otherwise. |
| NewsService.Item | services/news_service.py:98-114 | The item carries the title as headline, the original category, the source name or "Unknown", the sentiment label of the scored text, the resolved timestamp, the given blurb, the link and the trend fields. |
| NewsService.Line | services/news_service.py:118-124 | A line starts with the region's label, " · ", the original category and " · ". |
| NewsService.Combine | services/news_service.py:115-125 | Joining two runs that give one line per item gives one line per item. |
| NewsService.Report | services/news_service.py:77-124 | An article's item has its title, its category and the corrected blurb, stamped with the instant its publication text resolves to. Its line starts with the region label and the category. |
| NewsService.Reports | services/news_service.py:73-125 | Article i of the kept ones gives item i and line i, with no warnings. |
| NewsService.FailureText | services/news_service.py:127-131 | NewsAPI's warning names the country and category; NewsData's names the region and category. |
| NewsService.RequestStep | services/news_service.py:67-131 | A failed request gives exactly one warning and nothing else. An answered one gives one item and one line per kept article, in order, and no feedback. It uses the corrected blurb; the raising path is NewsService.RequestStepAsWritten. |
| NewsService.Pairs | services/news_service.py:56-57 | Every (country, category) pair is requested, and nothing else. |
| NewsService.Pair | services/news_service.py:57 | One request per category for a country, in category order. |
| NewsService.Pass | services/news_service.py:56-57 | No pairs give nothing; otherwise the first pair's items, lines and warnings come first. |
| NewsService.RegionStep | services/news_service.py:57-131 | For every pair, the step gives one line per item, and warns exactly when the pair's request fails. |
| NewsService.RegionNews | services/news_service.py:52-131 | A region's requests give one warning per failed pair, and warnings only. |
| NewsService.Collect | services/news_service.py:52-134 | The news map holds exactly the selected regions whose pass collected items, each with those items. |
| NewsService.Prepend | services/news_service.py:52-134 | A region's lines and warnings come before the later regions'. Its items become its entry when it has any and no later occurrence of the region has one. The other entries are unchanged. |
| NewsService.Assemble | services/news_service.py:136-144 | The lines are the loop's. The feedback is the loop's, plus the info entry exactly when there are no lines. news is present exactly when some region has items, and then holds them. No time series. |
| NewsService.FetchProviderNews | services/news_service.py:14-144 | Without a key, the result is exactly one warning naming the provider's variable and nothing else; no time series is ever stored. It uses the corrected blurb; the code as written is NewsService.FetchProviderNewsAsWritten. |
| NewsService.FetchNewsapiNews | services/news_service.py:14-144 | Without a NEWSAPI_KEY key, the result holds only one warning. Corrected blurb; see NewsService.AsWrittenRaisesOnNull. |
| NewsService.FetchNewsdataNews | services/news_service.py:147-276 | Without a NEWSDATA_KEY key, the result holds only one warning. Corrected blurb; see NewsService.AsWrittenRaisesOnNull. |
| NewsService.FetchNews | services/news_service.py:280-293 | "newsdata" selects NewsData; any other provider name selects NewsAPI. |
| NewsService.PassBalanced | services/news_service.py:115-125 | A run of requests whose steps give one line per item does too. |
| NewsService.RegionBalanced | services/news_service.py:56-131 | A region's requests give exactly one line per item. |
| NewsService.FailedPairs | services/news_service.py:127-131 | The failed pairs are requested pairs whose request failed. |
| NewsService.AnsweredPairs | services/news_service.py:67-125 | Answered and failed pairs together number all the pairs; every answered pair was requested and answered. |
| NewsService.FailuresWarn | services/news_service.py:127-131 | One warning per failed request, and nothing but warnings. |
| NewsService.FailuresSkipped | services/news_service.py:127-131 | A failed request does not stop the loop: the items and lines are exactly those of the answered requests, in order. |
| NewsService.NewsDataAtMostFive | services/news_service.py:205 | A NewsData response gives at most five items. |
| NewsService.NewsDataRegionBound | services/news_service.py:189-207 | A NewsData region has at most five items per selected category. |
| NewsService.PassBound | services/news_service.py:56-57 | Requests that each give at most b items give at most b times their number in total. |
| NewsService.CollectLines | services/news_service.py:52-139 | One line per collected item overall; no lines exactly when no region has news. |
| NewsService.CollectWarnings | services/news_service.py:52-131 | The region loop's feedback has one entry per failed request. |
| NewsService.CollectOnlyWarns | services/news_service.py:127-131 | When each region pass warns only, the region loop gives warnings only. |
| NewsService.PassOfWarns | services/news_service.py:127-131 | Each region pass of a call gives warnings only. |
| NewsService.PassOfBalanced | services/news_service.py:115-125 | Each region pass of a call gives one line per item. |
| NewsService.FetchExtra | services/news_service.py:133-137 | With a key, news is present exactly when there are lines, and holds exactly the selected regions that collected items. |
| NewsService.FetchFeedback | services/news_service.py:127-142 | With a key: one info entry exactly when there are no lines, and one warning per failed request. |
| NewsService.CategoriesCovered | services/news_service.py:32-38 | Every one of the five categories is in both providers' category maps. |
| NewsService.UnknownRegionAsksUs | services/news_service.py:53 | A region outside the catalogue is asked as the United States by both providers. |
| NewsService.UnknownCategoryIsBusiness | services/news_service.py:59 | A category outside the five is asked as "business" by both providers. |
| NewsService.NullDescriptionRaises | services/news_service.py:104 | A kept article with a null description makes the code raise, while the corrected blurb is its title. |
| NewsService.BlurbCorrected | services/news_service.py:104 | The corrected blurb agrees with the code wherever the code returns. It reads a null description as "", as the scored text does. A kept article always gets a non-empty blurb. |
| NewsService.ReportAsWritten | services/news_service.py:98-125 | As written: an article with a null description raises TypeError; any other article gives the corrected report. |
| NewsService.ReportsRaise | services/news_service.py:73-125 | The article loop as written raises exactly when some kept article has a null description; otherwise it gives the corrected items and lines. |
| NewsService.RequestStepAsWritten | services/news_service.py:67-131 | As written, a request raises TypeError exactly when it is answered with a kept article whose description is null. The except clause only catches request errors. Otherwise the step is the corrected one. |
| NewsService.PassRaise | services/news_service.py:56-131 | The nested loops as written raise exactly when some pair raises, and otherwise give the corrected result. |
| NewsService.RegionStepRaise | services/news_service.py:57-131 | A region's step as written raises exactly on the pairs whose request reaches a kept article with a null description. |
| NewsService.RegionRaise | services/news_service.py:52-131 | A region's requests as written raise exactly when one of its pairs reaches a null description. |
| NewsService.RegionNewsAsWritten | services/news_service.py:52-131 | A region as written raises TypeError exactly when one of its requests reaches a kept article with a null description, and otherwise is the corrected region. |
| NewsService.CollectRaise | services/news_service.py:52-134 | The region loop as written raises exactly when some selected region raises, and otherwise gives the corrected loop. |
| NewsService.PassOfRaise | services/news_service.py:52-131 | Each region pass of a call as written raises exactly when that region reaches a null description. |
| NewsService.Finish | services/news_service.py:133-144 | An exception from the loop escapes the adapter unchanged; a finished loop is assembled into the result. |
| NewsService.FinishRaise | services/news_service.py:52-144 | Over region passes that raise on some regions, the adapter raises exactly when a selected region raises, and otherwise returns the corrected result. |
| NewsService.FetchProviderNewsAsWritten | services/news_service.py:14-144 | As written, a call without a key returns the missing-key warning. |
| NewsService.AsWrittenWithKey | services/news_service.py:28-144 | With a key, the adapter as written raises TypeError exactly when a selected region reaches a kept article with a null description, and otherwise returns the corrected result. |
| NewsService.AsWrittenRaisesOnNull | services/news_service.py:14-276 | Both live adapters as written raise TypeError exactly when there is a key and some request reaches a kept article with a null description. Otherwise they return what the corrected adapter returns. |
| NewsService.NullDescriptionEndsCall | services/news_service.py:147-276 | A NewsData call for Europe and Energy whose one response holds a titled article with a null description raises TypeError instead of returning. |
| NewsService.EuropeEnergyReachesNull | services/news_service.py:178-236 | That response makes the call reach the null description. |
| NewsService.EuropeEnergyRequest | services/news_service.py:161-190 | NewsData asks Europe as gb and Energy as science. |
| Text.Lower | processors/keyword_filter.py:32 | Lower-casing keeps the length and maps each character on its own. |
| Text.Upper | core/context_builder.py:26 | Upper-casing keeps the length and maps each character on its own. |
| Text.Title | services/macro_service.py:90 | Title case keeps the length. The first character is raised. Every later character is lowered after a letter and raised after anything else. |
| Text.TitleFrom | services/news_service.py:119 | Title-casing a suffix raises its first character unless a letter came before it. Each later character is lowered after a letter and raised otherwise. |
| Text.Contains | processors/keyword_filter.py:34 | A contained needle is no longer than the text, and every text contains itself. |
| Text.Join | core/context_builder.py:28 | No parts join to "", one part joins to itself, and the join starts with the first part, followed by the separator when more parts follow. |
| Text.MissingChar | processors/sentiment_analyzer.py:53-54 | A needle with a character the text lacks does not occur in it. |
| Text.MissingAt | processors/sentiment_analyzer.py:53-54 | A needle that fails to start at every place one of its characters allows does not occur. |
| Text.ContainsTransitive | processors/sentiment_analyzer.py:53-54 | A needle found inside a bigger needle is found wherever that one is. |
| Text.LowerIdempotent | processors/keyword_filter.py:21 | Lower-casing twice is lower-casing once. |
| Text.JoinAppend | core/context_builder.py:28 | Joining two non-empty runs puts exactly one separator between their joins. |
| Text.Take | services/news_service.py:104 | `s[:n]` is a prefix of s, of length n or the whole of s when shorter. |

## Left out

- The Excel truth-table loader (processors/sentiment_analyzer.py:166-184) is file I/O. A caller-supplied table is modelled directly as `Some(table)`.
- Network I/O: `requests.get`, `raise_for_status` and `.json()`. Each is one fetch-outcome parameter per series, symbol or request. The request parameters that do not vary (URLs, `pageSize`, `language`, `timeout`, date ranges) are not modelled.
- `load_fred_series` is not modelled: `st.cache_data`, `pd.to_datetime`, `to_numeric`, `dropna` and the sort by date. A loaded frame is a sequence of observations, assumed already cleaned and sorted.
- pandas DataFrames, `TRUTH_TABLE` included, are sequences of rows. The region tables under `macro_tables` are the rows themselves.
- Floating-point arithmetic: the scores, rates and price changes are exact reals, so rounding in `(pos - neg) / total`, `round(x, 2)` and the percentage changes is not modelled.
- Number and date text (`:.2f`, `:+.2f`, `:,.1f`, `:.3f`, `str(x)`, `strftime`) comes from an opaque `Formats` value. Contracts fix where each rendered value goes, not its digits.
- FredService.SeriesSummary: states the line's head (name, id, latest value), the change sentence when there are at least two observations, and its closing description. The date, the change figures and their percentage are rendered text from `Formats`, and their positions are not stated.
- Deterministic fetch: each remote call is a function, so the model assumes one request gets one answer throughout an adapter call. The code does not guarantee that:
  - The FRED loader's `st.cache_data` (services/fred_service.py:29) lives across calls and does not keep failures.
  - EODHD and news requests are not cached.
  - SPY.US is requested for asia and again for every unknown region of the same call (services/macro_service.py:33, 39).
- NewsService.RequestStep: models the corrected blurb, so it never raises on a `null` description. The code as written is NewsService.RequestStepAsWritten.
- NewsService.FetchProviderNews: models the corrected blurb and never raises. The raising adapter as written is NewsService.FetchProviderNewsAsWritten; see NewsService.AsWrittenRaisesOnNull.
- NewsService.FetchNewsapiNews: the corrected NewsAPI adapter; it never raises `TypeError` on a `null` description. The behaviour as written is NewsService.AsWrittenRaisesOnNull.
- NewsService.FetchNewsdataNews: the corrected NewsData adapter; it never raises `TypeError` on a `null` description. The behaviour as written is NewsService.AsWrittenRaisesOnNull.
- FredService.ErrorDetail: states that a non-empty detail is one of the three candidates. It does not state that it is the first truthy one; the body picks them in source order.
- `datetime.fromisoformat` on publication dates and the `datetime.now()` fallbacks in the live news adapters are the `clock` parameter. The mock adapter's timestamps are all in the `YYYY-MM-DDTHH:MM:SSZ` form, and only that form is rendered exactly.
- `os.getenv` is the `env` parameter.
- Case mapping covers ASCII and Latin-1, U+00C0 to U+00FE. Other characters, `ß`, `ÿ` and `µ` included, are left as they are. `Text.Title` also counts them, and `ª` and `º`, as uncased. Python's `str.title` counts them as cased, so it lowers a letter that follows one of them. For example, `"ªa".title()` is `"ªa"`, where the model gives `"ªA"`.
- A present JSON `null` is read as an absent field for four fields the code stores without raising:
  - the NewsAPI `source.name` (services/news_service.py:101);
  - the NewsData `source_id` (services/news_service.py:233);
  - the article `url` / `link` (services/news_service.py:105, 237);
  - an EODHD record's `date` (services/macro_service.py:79).

  The code stores `None` for each. The model stores the default instead: `"Unknown"`, `""` or `today`. `Option` has no null case, and `NewsService.Field` is used only where a `null` changes the control flow.
- JSON `null` is modelled only for an article's title, description and publication date. These shapes are outside the model because the code raises on them:
  - a `null` or non-object `source`;
  - a `null` article list;
  - a `null` `close` in an EODHD record;
  - a JSON body that is not an object where one is read.
- `SourceResult` containers are not shared between instances because Dafny values are immutable. The model therefore has no aliasing to rule out.
- A `SourceConfig`'s `fetcher` is a tag naming the adapter, not a callable.
- `app.py` (Streamlit layout, session state, chat and LLM streaming) is not part of this model.

### Behaviour of the code worth knowing

- The adapters catch only request errors, so two inputs make an adapter raise:
  - `collect_fred_data` raises `KeyError` on a series name missing from `FRED_SERIES` (services/fred_service.py:148); see `FredService.CollectFredData`.
  - Both live news adapters raise `TypeError` on a kept article whose description is `null`; see the finding below.
- A text without any keyword scores (0, 0, 0). With the built-in table that matches the all-zero row (processors/sentiment_analyzer.py:27), so the fallback rule at line 134 is never reached; `SentimentAnalyzer.NoKeywordText` states it. The text is bearish at the base rate.
- In the news and regional-indicator adapters, a request answered with nothing adds nothing. Only a call with no lines at all gets the single info entry (services/news_service.py:139-142, services/macro_service.py:105-108).

## Findings

| source | as written | input that shows it | evidently intended | confidence | as-written member | corrected member |
|---|---|---|---|---|---|---|
| services/news_service.py:104 (and :236) | The blurb slices `article.get("description", "")[:200]`. When the field is present but JSON `null`, that is `None[:200]`. It raises `TypeError`, which the `except requests.RequestException` handler does not catch, so the whole adapter call fails. | A kept article with title "Markets rally" and description `null` | Read a `null` description as empty, as lines 88 and 220 already do for the scored text, so the blurb falls back to the title | not executed | NewsService.BlurbAsWritten, NewsService.FetchProviderNewsAsWritten (exhibited by NewsService.NullDescriptionRaises, NewsService.AsWrittenRaisesOnNull and NewsService.NullDescriptionEndsCall) | NewsService.Blurb, NewsService.FetchProviderNews (proved by NewsService.BlurbCorrected; used by NewsService.Item) |
