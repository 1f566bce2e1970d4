/** The static table of data sources (core/source_registry.py). Fetchers are
    named by tag: the adapter each tag stands for is modelled in its own
    module. */
module SourceRegistry {
  import opened Dicts
  import Models

  /** The adapter a source calls. */
  datatype Fetcher = CollectFredData | FetchRegionalMacro | FetchNews

  /** `SourceConfig`: identifier, display label, adapter and whether an API
      key is mandatory. */
  datatype SourceConfig = SourceConfig(id: string, displayLabel: string, fetcher: Fetcher, requiresApiKey: bool)

  /** `SourceConfig(id, label, fetcher)` with the field default: no key needed. */
  function DefaultConfig(id: string, displayLabel: string, fetcher: Fetcher): (c: SourceConfig)
    ensures c.id == id && c.displayLabel == displayLabel && c.fetcher == fetcher
    ensures !c.requiresApiKey
  {
    SourceConfig(id, displayLabel, fetcher, false)
  }

  /** `SOURCE_REGISTRY`, in insertion order. */
  const Registry: Dict<string, SourceConfig> := [
    ("fred", SourceConfig("fred", "FRED", CollectFredData, true)),
    ("macro_regional", SourceConfig("macro_regional", "Indicadores regionales", FetchRegionalMacro, true)),
    ("news_public", SourceConfig("news_public", "Noticias públicas", FetchNews, true))
  ]

  /** `list_sources()`: one config per registered key, in registry order. */
  function ListSources(): (cs: seq<SourceConfig>)
    ensures |cs| == |Registry|
    ensures forall i :: 0 <= i < |cs| ==> cs[i] == Registry[i].1
  {
    Values(Registry)
  }

  /** `get_source_config(id)`: the registered config, or a `KeyError`. */
  function GetSourceConfig(sourceId: string): (r: Models.Outcome<SourceConfig>)
    ensures r.Returned? <==> sourceId in Keys(Registry)
    ensures r.Raised? ==> r.error == Models.KeyError(sourceId)
    ensures r.Returned? ==> exists i :: 0 <= i < |Registry| && Registry[i] == (sourceId, r.value)
  {
    match Get(Registry, sourceId)
    case Some(c) => Models.Returned(c)
    case None => Models.Raised(Models.KeyError(sourceId))
  }

  /** The registry holds exactly fred, macro_regional and news_public, in that
      order; each entry's id is its key and each needs an API key. */
  lemma RegistryShape()
    ensures Keys(Registry) == ["fred", "macro_regional", "news_public"]
    ensures DistinctKeys(Registry)
    ensures forall i :: 0 <= i < |Registry| ==> Registry[i].1.id == Registry[i].0
    ensures forall i :: 0 <= i < |Registry| ==> Registry[i].1.requiresApiKey
  {
  }

  /** Listing and lookup agree: every listed config is found again by its id,
      and every id that resolves appears in the listing. */
  lemma {:induction false} ListAndLookupAgree(sourceId: string)
    ensures forall c <- ListSources() :: GetSourceConfig(c.id) == Models.Returned(c)
    ensures GetSourceConfig(sourceId).Returned? ==> GetSourceConfig(sourceId).value in ListSources()
  {
    RegistryShape();
    forall i | 0 <= i < |Registry|
      ensures GetSourceConfig(ListSources()[i].id) == Models.Returned(ListSources()[i])
    {
      GetAt(Registry, i);
    }
    var r := GetSourceConfig(sourceId);
    if r.Returned? {
      var i :| 0 <= i < |Registry| && Registry[i] == (sourceId, r.value);
      assert ListSources()[i] == r.value;
    }
  }
}
