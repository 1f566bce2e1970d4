/** The FRED adapter (services/fred_service.py): one request per selected
    series, each answer turned into a context line or a feedback entry,
    without one failing series stopping the others.

    The HTTP call is a parameter `fetch` from a series id to its outcome.
    Being a function, it gives one series id one answer throughout a call;
    that is an assumption of the model, not something the loader's cache
    guarantees (the cache lives across calls and does not keep failures). */
module FredService {
  import opened Dicts
  import opened Text
  import opened Models
  import DataSources

  /** The JSON body of a rejection: its `error_message` and `message`
      fields, each `None` when absent. */
  datatype ErrorPayload = ErrorPayload(errorMessage: Option<string>, message: Option<string>)

  /** The response attached to an HTTP error: its decoded JSON body (`None`
      when it is not JSON) and its raw text. */
  datatype HttpResponse = HttpResponse(payload: Option<ErrorPayload>, text: string)

  /** What loading one series can end in. */
  datatype SeriesFetch =
    | Loaded(frame: seq<Observation>)
    | Rejected(response: Option<HttpResponse>)
    | NetworkFailure(reason: string)

  const SelectPrompt := "Selecciona al menos una serie económica de FRED."
  const NoUpdate := "No se pudieron actualizar las series de FRED con los parámetros proporcionados."
  const KeyFormatHint :=
    "La API key de FRED no tiene el formato correcto (32 caracteres alfanuméricos en minúscula). Solicita o copia nuevamente la clave desde FRED."

  /** Python truthiness of an optional string field. */
  predicate Truthy(field: Option<string>)
  {
    field.Some? && field.value != ""
  }

  /** The error detail: the first truthy one of `error_message`, `message`
      and the raw text; "" when there is no response. A body that is not JSON
      counts as `{}`. */
  function ErrorDetail(response: Option<HttpResponse>): (detail: string)
    ensures response.None? ==> detail == ""
    ensures response.Some? && detail != "" ==>
      (exists f <- [response.value.payload.GetOr(ErrorPayload(None, None)).errorMessage,
                    response.value.payload.GetOr(ErrorPayload(None, None)).message] ::
         Truthy(f) && f.value == detail)
      || detail == response.value.text
  {
    match response
    case None => ""
    case Some(resp) =>
      var body := resp.payload.GetOr(ErrorPayload(None, None));
      if Truthy(body.errorMessage) then body.errorMessage.value
      else if Truthy(body.message) then body.message.value
      else resp.text
  }

  /** The user message for a rejected series: the key-format hint exactly
      when the detail mentions `api_key` in any case, the generic rejection
      naming the series otherwise. */
  function RejectionMessage(name: string, response: Option<HttpResponse>): (m: string)
    ensures Contains(Lower(ErrorDetail(response)), "api_key") ==> m == KeyFormatHint
    ensures !Contains(Lower(ErrorDetail(response)), "api_key") ==>
      m == "FRED rechazó la serie " + name + ". Revisa la clave o los parámetros."
  {
    if Contains(Lower(ErrorDetail(response)), "api_key") then KeyFormatHint
    else "FRED rechazó la serie " + name + ". Revisa la clave o los parámetros."
  }

  /** `format_value(value, value_format)`. */
  function FormatValue(value: real, valueFormat: string, fmt: Formats): (text: string)
    ensures valueFormat == "percent" ==> text == fmt.fixed(value, 2) + "%"
    ensures valueFormat == "billions" ==> text == "$" + fmt.grouped(value, 1) + "B"
    ensures valueFormat == "index" ==> text == fmt.fixed(value, 2)
    ensures valueFormat !in DataSources.ValueFormats ==> text == fmt.grouped(value, 2)
  {
    if valueFormat == "percent" then fmt.fixed(value, 2) + "%"
    else if valueFormat == "billions" then "$" + fmt.grouped(value, 1) + "B"
    else if valueFormat == "index" then fmt.fixed(value, 2)
    else fmt.grouped(value, 2)
  }

  /** The move from the second-to-last to the last observation: the
      difference, and the percentage change unless the earlier value is 0. */
  datatype Change = Change(diff: real, pct: Option<real>)

  function LatestChange(frame: seq<Observation>): (c: Option<Change>)
    ensures c.Some? <==> |frame| > 1
    ensures c.Some? ==> frame[|frame| - 2].value + c.value.diff == frame[|frame| - 1].value
    ensures c.Some? ==> (c.value.pct.None? <==> frame[|frame| - 2].value == 0.0)
    ensures c.Some? && c.value.pct.Some? ==>
      c.value.pct.value * frame[|frame| - 2].value == c.value.diff * 100.0
  {
    if |frame| <= 1 then None
    else
      var previous := frame[|frame| - 2].value;
      var diff := frame[|frame| - 1].value - previous;
      Some(Change(diff, if previous != 0.0 then Some(diff / previous * 100.0) else None))
  }

  /** `build_series_summary(name, metadata, df)` for a non-empty frame: the
      latest value and date, the change since the previous observation when
      there is one, then the description. */
  function SeriesSummary(name: string, meta: SeriesInfo, frame: seq<Observation>, fmt: Formats): (line: string)
    requires |frame| > 0
    ensures name + " (" + meta.seriesId + "): valor " + FormatValue(frame[|frame| - 1].value, meta.valueFormat, fmt) <= line
    ensures |frame| > 1 ==> Contains(line, ". Cambio desde el dato previo: ")
    ensures |line| > |meta.description| && line[|line| - |meta.description| - 1..] == " " + meta.description
  {
    var latest := frame[|frame| - 1];
    var lead := name + " (" + meta.seriesId + "): valor " + FormatValue(latest.value, meta.valueFormat, fmt);
    var dated := " a " + fmt.dayMonthYear(latest.date);
    var tail := " " + meta.description;
    match LatestChange(frame)
    case None =>
      ThreeParts(lead, dated + ".", tail);
      lead + (dated + ".") + tail
    case Some(Change(diff, pct)) =>
      var diffText := FormatValue(diff, meta.valueFormat, fmt);
      var close := match pct
        case Some(p) => " (" + fmt.signed(p, 2) + "%)."
        case None => ".";
      var rest := diffText + close;
      var middle := dated + ". Cambio desde el dato previo: " + rest;
      ThreeParts(lead, middle, tail);
      Marked(lead, dated, ". Cambio desde el dato previo: ", rest, tail);
      lead + middle + tail
  }

  /** The facts about a three-part text the summary line relies on. */
  lemma ThreeParts(a: string, b: string, c: string)
    ensures a <= a + b + c
    ensures (a + b + c)[|a + b + c| - |c|..] == c
    ensures Contains(a + b + c, b)
  {
    assert (a + b + c)[|a|..|a| + |b|] == b;
    ContainsAt(a + b + c, b, |a|);
  }

  /** A marker inside the middle part of a three-part text is in the text. */
  lemma Marked(a: string, b: string, m: string, r: string, c: string)
    ensures Contains(a + (b + m + r) + c, m)
  {
    var t := a + (b + m + r) + c;
    assert t[|a| + |b|..|a| + |b| + |m|] == m;
    ContainsAt(t, m, |a| + |b|);
  }

  /** `compute_metric_snapshot(name, metadata, df)`: card fields in insertion
      order, with the change fields only when there are two observations. */
  function MetricSnapshot(name: string, meta: SeriesInfo, frame: seq<Observation>, fmt: Formats): (card: Dict<string, string>)
    ensures |frame| == 0 <==> card == []
    ensures |frame| == 1 ==> Keys(card) == ["title", "value", "date", "description"]
    ensures |frame| > 1 ==> Keys(card) == ["title", "value", "date", "description", "delta_text", "delta_pct"]
    ensures |frame| > 0 ==> card[0] == ("title", name) && card[3] == ("description", meta.description)
    ensures |frame| > 0 ==> card[1].1 == FormatValue(frame[|frame| - 1].value, meta.valueFormat, fmt)
    ensures |frame| > 1 ==> (card[5].1 == "" <==> frame[|frame| - 2].value == 0.0)
  {
    if |frame| == 0 then []
    else
      var latest := frame[|frame| - 1];
      var base := [
        ("title", name),
        ("value", FormatValue(latest.value, meta.valueFormat, fmt)),
        ("date", fmt.dayMonthYear(latest.date)),
        ("description", meta.description)
      ];
      match LatestChange(frame)
      case None => base
      case Some(Change(diff, pct)) =>
        var pctText := match pct case Some(p) => fmt.signed(p, 2) + "%" case None => "";
        assert pct.Some? ==> pctText[|pctText| - 1] == '%';
        base + [("delta_text", FormatValue(diff, meta.valueFormat, fmt)), ("delta_pct", pctText)]
  }

  /** What one series contributes to the result, whatever came before it. */
  datatype Contribution = Contribution(lines: seq<string>, feedback: seq<Feedback>, series: Option<TimeSeriesPayload>)

  /** The loop body for one series: a rejection or a network failure gives
      one error entry; a loaded frame is stored, then gives an info entry
      when empty and its summary line otherwise. */
  function Contribute(name: string, meta: SeriesInfo, outcome: SeriesFetch, fmt: Formats): (c: Contribution)
    ensures |c.lines| + |c.feedback| == 1
    ensures c.series.Some? <==> outcome.Loaded?
    ensures outcome.Loaded? ==> c.series == Some(TimeSeriesPayload(meta, outcome.frame))
    ensures |c.lines| == 1 <==> outcome.Loaded? && |outcome.frame| > 0
    ensures |c.feedback| == 1 ==> c.feedback[0].level == (if outcome.Loaded? then Info else Error)
    ensures outcome.Rejected? ==> c.feedback == [Feedback(Error, RejectionMessage(name, outcome.response))]
    ensures outcome.NetworkFailure? ==>
      c.feedback == [Feedback(Error, "Fallo de red al consultar " + name + ": " + outcome.reason)]
  {
    match outcome
    case Rejected(response) => Contribution([], [Feedback(Error, RejectionMessage(name, response))], None)
    case NetworkFailure(reason) =>
      Contribution([], [Feedback(Error, "Fallo de red al consultar " + name + ": " + reason)], None)
    case Loaded(frame) =>
      var series := Some(TimeSeriesPayload(meta, frame));
      if |frame| == 0 then
        Contribution([], [Feedback(Info, "No hay observaciones disponibles para " + name + " en el rango seleccionado.")], series)
      else
        Contribution([SeriesSummary(name, meta, frame, fmt)], [], series)
  }

  /** Adds one series' contribution to the running result. */
  function Apply(acc: SourceResult, name: string, c: Contribution): (r: SourceResult)
    ensures r.contextLines == acc.contextLines + c.lines
    ensures r.feedback == acc.feedback + c.feedback
    ensures r.extra == acc.extra
    ensures c.series.None? ==> r.timeseries == acc.timeseries
    ensures c.series.Some? ==> r.timeseries == acc.timeseries[name := c.series.value]
  {
    var stored := match c.series
      case Some(payload) => acc.timeseries[name := payload]
      case None => acc.timeseries;
    SourceResult(acc.contextLines + c.lines, acc.feedback + c.feedback, stored, acc.extra)
  }

  /** A series catalogue: display name to metadata. The adapter reads
      `DataSources.FredSeries`. */
  type Catalog = Dict<string, SeriesInfo>

  /** The loop body as a value: what a catalogued name contributes. */
  type Step = (string, SeriesInfo) -> Contribution

  /** The loop body `collect_fred_data` runs: fetch the series by its id,
      then turn the outcome into a contribution. */
  function FredStep(fetch: string -> SeriesFetch, fmt: Formats): (step: Step)
    ensures forall name, meta :: |step(name, meta).lines| + |step(name, meta).feedback| == 1
    ensures forall name, meta :: (step(name, meta).series.Some? <==> fetch(meta.seriesId).Loaded?)
  {
    var step := (name: string, meta: SeriesInfo) => Contribute(name, meta, fetch(meta.seriesId), fmt);
    assert forall name, meta :: step(name, meta) == Contribute(name, meta, fetch(meta.seriesId), fmt);
    step
  }

  /** The metadata of a catalogued series (`FRED_SERIES[name]`). */
  function Meta(catalog: Catalog, name: string): SeriesInfo
    requires name in Keys(catalog)
  {
    Get(catalog, name).value
  }

  /** The loop over the selection. Looking up a name the catalogue lacks
      raises `KeyError`, which nothing in the adapter catches. */
  function Loop(catalog: Catalog, acc: SourceResult, names: seq<string>, step: Step): (r: Outcome<SourceResult>)
    ensures |names| == 0 ==> r == Returned(acc)
    ensures r.Returned? ==> acc.contextLines <= r.value.contextLines && acc.feedback <= r.value.feedback
    ensures r.Returned? ==> r.value.extra == acc.extra
    decreases |names|
  {
    if |names| == 0 then Returned(acc)
    else
      match Get(catalog, names[0])
      case None => Raised(KeyError(names[0]))
      case Some(meta) => Loop(catalog, Apply(acc, names[0], step(names[0], meta)), names[1..], step)
  }

  /** `collect_fred_data(selected_series, ...)`, reading the series
      metadata from `catalog`. An empty selection only asks for one; a
      selection that stored no series and said nothing gets a warning. */
  function CollectFredData(catalog: Catalog, selected: seq<string>, fetch: string -> SeriesFetch, fmt: Formats): (r: Outcome<SourceResult>)
    ensures |selected| == 0 ==> r == Returned(NewSourceResult().AddFeedback(Info, SelectPrompt))
    ensures r.Raised? <==> !AllKnown(catalog, selected)
    ensures r.Raised? ==> r.error == KeyError(selected[FirstUnknown(catalog, selected)])
  {
    if |selected| == 0 then Returned(NewSourceResult().AddFeedback(Info, SelectPrompt))
    else
      LoopRaises(catalog, NewSourceResult(), selected, FredStep(fetch, fmt));
      match Loop(catalog, NewSourceResult(), selected, FredStep(fetch, fmt))
      case Raised(e) => Raised(e)
      case Returned(res) =>
        Returned(if res.timeseries == map[] && res.feedback == [] then res.AddFeedback(Warning, NoUpdate) else res)
  }

  // ---------------------------------------------------------------------
  // The loop as a flat map over the selection

  /** Every selected name is in the catalogue. */
  predicate AllKnown(catalog: Catalog, names: seq<string>)
  {
    forall n <- names :: n in Keys(catalog)
  }

  /** The position of the first name the catalogue lacks. */
  function FirstUnknown(catalog: Catalog, names: seq<string>): (i: nat)
    requires !AllKnown(catalog, names)
    ensures i < |names| && names[i] !in Keys(catalog)
    ensures forall j :: 0 <= j < i ==> names[j] in Keys(catalog)
  {
    if names[0] !in Keys(catalog) then 0
    else
      assert forall n <- names[1..] :: n in names;
      1 + FirstUnknown(catalog, names[1..])
  }

  /** The context lines of the selection: each name's lines, in selection order. */
  function LinesOf(catalog: Catalog, names: seq<string>, step: Step): seq<string>
    requires AllKnown(catalog, names)
  {
    if |names| == 0 then []
    else step(names[0], Meta(catalog, names[0])).lines + LinesOf(catalog, names[1..], step)
  }

  /** The feedback of the selection: each name's entries, in selection order. */
  function FeedbackOf(catalog: Catalog, names: seq<string>, step: Step): seq<Feedback>
    requires AllKnown(catalog, names)
  {
    if |names| == 0 then []
    else step(names[0], Meta(catalog, names[0])).feedback + FeedbackOf(catalog, names[1..], step)
  }

  /** One turn of the loop over a catalogued first name. */
  lemma LoopStep(catalog: Catalog, acc: SourceResult, names: seq<string>, step: Step)
    requires |names| > 0 && names[0] in Keys(catalog)
    ensures Loop(catalog, acc, names, step)
         == Loop(catalog, Apply(acc, names[0], step(names[0], Meta(catalog, names[0]))), names[1..], step)
  {
    var found := Get(catalog, names[0]);
    assert found.Some? && Meta(catalog, names[0]) == found.value;
  }

  /** The loop raises exactly when some name is not catalogued, and then
      on the first such name. */
  lemma {:induction false} LoopRaises(catalog: Catalog, acc: SourceResult, names: seq<string>, step: Step)
    ensures Loop(catalog, acc, names, step).Raised? <==> !AllKnown(catalog, names)
    ensures !AllKnown(catalog, names) ==> Loop(catalog, acc, names, step).error == KeyError(names[FirstUnknown(catalog, names)])
    decreases |names|
  {
    if |names| > 0 {
      var tail := names[1..];
      assert forall n <- tail :: n in names;
      match Get(catalog, names[0])
      case None =>
      case Some(meta) =>
        LoopRaises(catalog, Apply(acc, names[0], step(names[0], meta)), tail, step);
        if !AllKnown(catalog, names) {
          assert !AllKnown(catalog, tail);
        }
    }
  }

  /** Over a catalogued selection the loop is the flat map of per-name
      contributions: every name's lines, in selection order, whatever the
      earlier names did; `extra` is left alone. */
  lemma {:induction false} LoopFlattens(catalog: Catalog, acc: SourceResult, names: seq<string>, step: Step)
    requires AllKnown(catalog, names)
    ensures Loop(catalog, acc, names, step).Returned?
    ensures Loop(catalog, acc, names, step).value.contextLines == acc.contextLines + LinesOf(catalog, names, step)
    ensures Loop(catalog, acc, names, step).value.extra == acc.extra
    decreases |names|
  {
    if |names| > 0 {
      var tail := names[1..];
      assert forall n <- tail :: n in names;
      var c := step(names[0], Meta(catalog, names[0]));
      var next := Apply(acc, names[0], c);
      LoopStep(catalog, acc, names, step);
      LoopFlattens(catalog, next, tail, step);
      assert acc.contextLines + c.lines + LinesOf(catalog, tail, step)
          == acc.contextLines + LinesOf(catalog, names, step);
    } else {
      assert acc.contextLines + LinesOf(catalog, names, step) == acc.contextLines;
    }
  }

  /** Likewise for the feedback: every name's entries, in selection order. */
  lemma {:induction false} LoopFeedback(catalog: Catalog, acc: SourceResult, names: seq<string>, step: Step)
    requires AllKnown(catalog, names)
    ensures Loop(catalog, acc, names, step).Returned?
    ensures Loop(catalog, acc, names, step).value.feedback == acc.feedback + FeedbackOf(catalog, names, step)
    decreases |names|
  {
    if |names| > 0 {
      var tail := names[1..];
      assert forall n <- tail :: n in names;
      var c := step(names[0], Meta(catalog, names[0]));
      var next := Apply(acc, names[0], c);
      LoopStep(catalog, acc, names, step);
      LoopFeedback(catalog, next, tail, step);
      assert acc.feedback + c.feedback + FeedbackOf(catalog, tail, step)
          == acc.feedback + FeedbackOf(catalog, names, step);
    } else {
      assert acc.feedback + FeedbackOf(catalog, names, step) == acc.feedback;
    }
  }

  /** Over a catalogued selection the loop stores a series under exactly
      the names whose contribution carries one, besides those already there. */
  lemma {:induction false} LoopStores(catalog: Catalog, acc: SourceResult, names: seq<string>, step: Step)
    requires AllKnown(catalog, names)
    ensures Loop(catalog, acc, names, step).Returned?
    ensures forall n :: n in Loop(catalog, acc, names, step).value.timeseries <==>
      n in acc.timeseries || (n in names && step(n, Meta(catalog, n)).series.Some?)
    decreases |names|
  {
    if |names| > 0 {
      var tail := names[1..];
      assert forall n <- tail :: n in names;
      var c := step(names[0], Meta(catalog, names[0]));
      var next := Apply(acc, names[0], c);
      LoopStep(catalog, acc, names, step);
      LoopStores(catalog, next, tail, step);
      assert forall n :: n in next.timeseries <==> n in acc.timeseries || (n == names[0] && c.series.Some?);
      assert forall n :: n in names <==> n == names[0] || n in tail;
    }
  }

  /** Each stored series is the one its name's contribution carries. */
  lemma {:induction false} LoopStoresPayload(catalog: Catalog, acc: SourceResult, names: seq<string>, step: Step, n: string)
    requires AllKnown(catalog, names)
    requires n in names && step(n, Meta(catalog, n)).series.Some?
    ensures Loop(catalog, acc, names, step).Returned?
    ensures n in Loop(catalog, acc, names, step).value.timeseries
    ensures Loop(catalog, acc, names, step).value.timeseries[n] == step(n, Meta(catalog, n)).series.value
    decreases |names|
  {
    var tail := names[1..];
    assert forall m <- tail :: m in names;
    var c := step(names[0], Meta(catalog, names[0]));
    var next := Apply(acc, names[0], c);
    LoopStep(catalog, acc, names, step);
    if n in tail {
      LoopStoresPayload(catalog, next, tail, step, n);
    } else {
      assert n == names[0];
      assert next.timeseries[n] == c.series.value;
      LoopKeeps(catalog, next, tail, step, n);
    }
  }

  /** A stored series survives the rest of the loop when the rest never
      names it. */
  lemma {:induction false} LoopKeeps(catalog: Catalog, acc: SourceResult, names: seq<string>, step: Step, n: string)
    requires AllKnown(catalog, names)
    requires n in acc.timeseries && n !in names
    ensures Loop(catalog, acc, names, step).Returned?
    ensures n in Loop(catalog, acc, names, step).value.timeseries
    ensures Loop(catalog, acc, names, step).value.timeseries[n] == acc.timeseries[n]
    decreases |names|
  {
    if |names| > 0 {
      var tail := names[1..];
      assert forall m <- tail :: m in names;
      var c := step(names[0], Meta(catalog, names[0]));
      var next := Apply(acc, names[0], c);
      LoopStep(catalog, acc, names, step);
      assert next.timeseries[n] == acc.timeseries[n];
      LoopKeeps(catalog, next, tail, step, n);
    }
  }

  // ---------------------------------------------------------------------
  // collect_fred_data over a catalogued selection

  /** How many names' fetches did not load. */
  function Failures(catalog: Catalog, names: seq<string>, fetch: string -> SeriesFetch): (k: nat)
    requires AllKnown(catalog, names)
    ensures k <= |names|
  {
    if |names| == 0 then 0
    else
      assert forall n <- names[1..] :: n in names;
      (if fetch(Meta(catalog, names[0]).seriesId).Loaded? then 0 else 1) + Failures(catalog, names[1..], fetch)
  }

  /** Every name yields exactly one line or one feedback entry, and a
      name that gives no feedback has loaded. */
  lemma {:induction false} OneEntryPerName(catalog: Catalog, names: seq<string>, fetch: string -> SeriesFetch, fmt: Formats)
    requires AllKnown(catalog, names)
    ensures |LinesOf(catalog, names, FredStep(fetch, fmt))| + |FeedbackOf(catalog, names, FredStep(fetch, fmt))| == |names|
    ensures |FeedbackOf(catalog, names, FredStep(fetch, fmt))| < |names| ==>
      exists n <- names :: fetch(Meta(catalog, n).seriesId).Loaded?
  {
    if |names| > 0 {
      var tail := names[1..];
      assert forall n <- tail :: n in names;
      var meta := Meta(catalog, names[0]);
      var c := Contribute(names[0], meta, fetch(meta.seriesId), fmt);
      assert FredStep(fetch, fmt)(names[0], meta) == c;
      OneEntryPerName(catalog, tail, fetch, fmt);
    }
  }

  /** The feedback holds no warning and one error per failed fetch. */
  lemma {:induction false} FeedbackLevels(catalog: Catalog, names: seq<string>, fetch: string -> SeriesFetch, fmt: Formats)
    requires AllKnown(catalog, names)
    ensures CountLevel(FeedbackOf(catalog, names, FredStep(fetch, fmt)), Warning) == 0
    ensures CountLevel(FeedbackOf(catalog, names, FredStep(fetch, fmt)), Error) == Failures(catalog, names, fetch)
  {
    if |names| > 0 {
      var tail := names[1..];
      assert forall n <- tail :: n in names;
      var meta := Meta(catalog, names[0]);
      var c := Contribute(names[0], meta, fetch(meta.seriesId), fmt);
      assert FredStep(fetch, fmt)(names[0], meta) == c;
      var rest := FeedbackOf(catalog, tail, FredStep(fetch, fmt));
      FeedbackLevels(catalog, tail, fetch, fmt);
      CountLevelAppend(c.feedback, rest, Warning);
      CountLevelAppend(c.feedback, rest, Error);
      ContributionLevels(names[0], meta, fetch(meta.seriesId), fmt);
    }
  }

  /** One series' feedback: never a warning, an error exactly when the
      fetch failed. */
  lemma ContributionLevels(name: string, meta: SeriesInfo, outcome: SeriesFetch, fmt: Formats)
    ensures CountLevel(Contribute(name, meta, outcome, fmt).feedback, Warning) == 0
    ensures CountLevel(Contribute(name, meta, outcome, fmt).feedback, Error) == if outcome.Loaded? then 0 else 1
  {
    var fb := Contribute(name, meta, outcome, fmt).feedback;
    if |fb| == 1 {
      assert fb[1..] == [];
    }
  }

  /** `collect_fred_data` over a catalogued, non-empty selection: lines and
      feedback are the per-series ones in selection order, one per series;
      exactly the loaded series are stored, empty frames included; nothing
      goes under `extra`; and the trailing warning never fires. */
  lemma CollectFredDataSpec(catalog: Catalog, selected: seq<string>, fetch: string -> SeriesFetch, fmt: Formats)
    requires AllKnown(catalog, selected) && |selected| > 0
    ensures CollectFredData(catalog, selected, fetch, fmt).Returned?
    ensures CollectFredData(catalog, selected, fetch, fmt).value.contextLines == LinesOf(catalog, selected, FredStep(fetch, fmt))
    ensures CollectFredData(catalog, selected, fetch, fmt).value.feedback == FeedbackOf(catalog, selected, FredStep(fetch, fmt))
    ensures |CollectFredData(catalog, selected, fetch, fmt).value.contextLines|
          + |CollectFredData(catalog, selected, fetch, fmt).value.feedback| == |selected|
    ensures forall n :: n in CollectFredData(catalog, selected, fetch, fmt).value.timeseries <==>
      n in selected && fetch(Meta(catalog, n).seriesId).Loaded?
    ensures CollectFredData(catalog, selected, fetch, fmt).value.extra == map[]
    ensures CountLevel(CollectFredData(catalog, selected, fetch, fmt).value.feedback, Warning) == 0
  {
    var step := FredStep(fetch, fmt);
    var start := NewSourceResult();
    LoopFlattens(catalog, start, selected, step);
    LoopFeedback(catalog, start, selected, step);
    LoopStores(catalog, start, selected, step);
    OneEntryPerName(catalog, selected, fetch, fmt);
    FeedbackLevels(catalog, selected, fetch, fmt);
    var res := Loop(catalog, start, selected, step).value;
    assert res.contextLines == LinesOf(catalog, selected, step);
    assert res.feedback == FeedbackOf(catalog, selected, step);
    forall n
      ensures n in res.timeseries <==> n in selected && fetch(Meta(catalog, n).seriesId).Loaded?
    {
      if n in selected {
        assert step(n, Meta(catalog, n)).series.Some? <==> fetch(Meta(catalog, n).seriesId).Loaded?;
      }
    }
    if res.feedback == [] {
      var n :| n in selected && fetch(Meta(catalog, n).seriesId).Loaded?;
      assert n in res.timeseries;
    }
  }

  /** A stored series pairs the catalogue metadata with the loaded frame. */
  lemma StoredPayload(catalog: Catalog, selected: seq<string>, fetch: string -> SeriesFetch, fmt: Formats, n: string)
    requires AllKnown(catalog, selected) && n in selected
    requires fetch(Meta(catalog, n).seriesId).Loaded?
    ensures CollectFredData(catalog, selected, fetch, fmt).Returned?
    ensures n in CollectFredData(catalog, selected, fetch, fmt).value.timeseries
    ensures CollectFredData(catalog, selected, fetch, fmt).value.timeseries[n]
         == TimeSeriesPayload(Meta(catalog, n), fetch(Meta(catalog, n).seriesId).frame)
  {
    CollectFredDataSpec(catalog, selected, fetch, fmt);
    LoopStoresPayload(catalog, NewSourceResult(), selected, FredStep(fetch, fmt), n);
  }

  /** The default selection is catalogued, so collecting it never raises. */
  lemma DefaultSelectionNeverRaises(fetch: string -> SeriesFetch, fmt: Formats)
    ensures CollectFredData(DataSources.FredSeries, DataSources.DefaultFredSelection, fetch, fmt).Returned?
  {
    DataSources.DefaultFredSelectionIsFirstTwo();
  }
}
