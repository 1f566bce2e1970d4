/** The static catalogues the adapters draw on (config/data_sources.py). */
module DataSources {
  import opened Dicts
  import opened Models
  import Text

  /** `FRED_SERIES`: display name to series metadata, in insertion order. */
  const FredSeries: Dict<string, SeriesInfo> := [
    ("PIB real (GDPC1)", SeriesInfo(
      "GDPC1", "billions",
      "Producto Interno Bruto real de Estados Unidos (precios encadenados de 2017).")),
    ("Tasa de desempleo (UNRATE)", SeriesInfo(
      "UNRATE", "percent",
      "Tasa de desempleo civil en Estados Unidos.")),
    ("Índice de precios al consumidor (CPIAUCSL)", SeriesInfo(
      "CPIAUCSL", "index",
      "Índice de precios al consumidor para todos los consumidores urbanos."))
  ]

  /** `DEFAULT_FRED_SELECTION`: the first two series names. */
  const DefaultFredSelection: seq<string> := Keys(FredSeries)[..2]

  /** `DEFAULT_FRED_RANGE_DAYS`: three years of 365 days. */
  const DefaultFredRangeDays: nat := 365 * 3

  /** `REGIONAL_MACRO_REGIONS`: region id to display label. */
  const RegionalMacroRegions: Dict<string, string> := [
    ("asia", "Asia Pacific"),
    ("australia", "Australia & Oceania"),
    ("europe", "Europe")
  ]

  /** `NEWS_CATEGORIES`. */
  const NewsCategories: seq<string> := ["Macro Policy", "Trade", "Geopolitics", "Energy", "Technology"]

  /** The value formats a series may declare. */
  const ValueFormats: set<string> := {"billions", "percent", "index"}

  /** `FRED_SERIES` has three entries with distinct names and series ids, and
      each declares one of the known value formats and a description. */
  lemma FredSeriesShape()
    ensures |FredSeries| == 3 && DistinctKeys(FredSeries)
    ensures forall i :: 0 <= i < |FredSeries| ==>
      FredSeries[i].1.valueFormat in ValueFormats && FredSeries[i].1.description != ""
    ensures forall i, j :: 0 <= i < j < |FredSeries| ==> FredSeries[i].1.seriesId != FredSeries[j].1.seriesId
  {
  }

  /** The default selection is the first two catalogue names, in order. */
  lemma DefaultFredSelectionIsFirstTwo()
    ensures DefaultFredSelection == [FredSeries[0].0, FredSeries[1].0]
    ensures forall n <- DefaultFredSelection :: n in Keys(FredSeries)
  {
  }

  /** `REGIONAL_MACRO_REGIONS` labels exactly asia, australia and europe. */
  lemma RegionsShape()
    ensures Keys(RegionalMacroRegions) == ["asia", "australia", "europe"]
    ensures DistinctKeys(RegionalMacroRegions)
  {
  }

  /** The five news categories are distinct. */
  lemma NewsCategoriesDistinct()
    ensures |NewsCategories| == 5
    ensures forall i, j :: 0 <= i < j < |NewsCategories| ==> NewsCategories[i] != NewsCategories[j]
  {
  }

  /** `list(given) if given else all`: an absent or empty selection means
      every choice, in catalogue order. */
  function OrAll(given: Option<seq<string>>, all: seq<string>): (selected: seq<string>)
    ensures given.None? || given.value == [] ==> selected == all
    ensures given.Some? && given.value != [] ==> selected == given.value
  {
    if given.Some? && given.value != [] then given.value else all
  }

  /** The regions an adapter walks: the given ones, or every catalogue region. */
  function SelectedRegions(regions: Option<seq<string>>): (selected: seq<string>)
    ensures regions.None? || regions.value == [] ==> selected == Keys(RegionalMacroRegions)
    ensures regions.Some? && regions.value != [] ==> selected == regions.value
  {
    OrAll(regions, Keys(RegionalMacroRegions))
  }

  /** The categories an adapter asks for: the given ones, or all five. */
  function SelectedCategories(categories: Option<seq<string>>): (selected: seq<string>)
    ensures categories.None? || categories.value == [] ==> selected == NewsCategories
    ensures categories.Some? && categories.value != [] ==> selected == categories.value
  {
    OrAll(categories, NewsCategories)
  }

  /** The display label of a region: its catalogue label, or the id in title
      case when the catalogue does not know it. */
  function RegionLabel(regionId: string): (regionLabel: string)
    ensures regionId == "asia" ==> regionLabel == "Asia Pacific"
    ensures regionId == "australia" ==> regionLabel == "Australia & Oceania"
    ensures regionId == "europe" ==> regionLabel == "Europe"
    ensures regionId !in Keys(RegionalMacroRegions) ==> regionLabel == Text.Title(regionId)
  {
    match Get(RegionalMacroRegions, regionId)
    case Some(known) => known
    case None => Text.Title(regionId)
  }

  /** The indicator line of each row, under the label of the region it is
      tagged with. */
  function TaggedMacroLines(tagged: seq<(string, MacroRow)>, fmt: Formats): (lines: seq<string>)
    ensures |lines| == |tagged|
    ensures forall i :: 0 <= i < |tagged| ==>
      lines[i] == MacroLine(RegionLabel(tagged[i].0), tagged[i].1, fmt)
  {
    if |tagged| == 0 then [] else [MacroLine(RegionLabel(tagged[0].0), tagged[0].1, fmt)] + TaggedMacroLines(tagged[1..], fmt)
  }

  /** The lines of a concatenation are the concatenated lines. */
  lemma {:induction false} TaggedMacroLinesAppend(a: seq<(string, MacroRow)>, b: seq<(string, MacroRow)>, fmt: Formats)
    ensures TaggedMacroLines(a + b, fmt) == TaggedMacroLines(a, fmt) + TaggedMacroLines(b, fmt)
  {
    if |a| == 0 {
      assert a + b == b;
    } else {
      assert (a + b)[1..] == a[1..] + b;
      TaggedMacroLinesAppend(a[1..], b, fmt);
    }
  }
}
