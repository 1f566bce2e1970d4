/** The uniform result every data-source adapter returns, and the values it
    carries (core/models.py), together with the pieces the adapters share:
    feedback levels, Python exceptions that escape an adapter, and the
    number and date rendering the context lines use. */
module Models {
  import opened Dicts

  /** The severity tag of a feedback entry. */
  datatype Level = Error | Warning | Info | Success

  /** One `(level, message)` pair shown to the user. */
  datatype Feedback = Feedback(level: Level, message: string)

  /** One row of a series frame: the observation date and its value. */
  datatype Observation = Observation(date: string, value: real)

  /** The metadata of a FRED series (an entry of `FRED_SERIES`). */
  datatype SeriesInfo = SeriesInfo(seriesId: string, valueFormat: string, description: string)

  /** `TimeSeriesPayload`: metadata paired with the series frame. */
  datatype TimeSeriesPayload = TimeSeriesPayload(metadata: SeriesInfo, frame: seq<Observation>)

  /** The market-trend fields a live news item carries. */
  datatype TrendFields = TrendFields(
    p: real, q: real, s: real,
    tendencia: string, esAlzista: bool, tasa: real, sumaValores: real)

  /** What a live provider adds to a news item: its link and trend fields. */
  datatype LiveFields = LiveFields(url: string, trend: TrendFields)

  /** One news item, as kept under `extra["news"][region]`. Synthetic items
      have no live part. */
  datatype NewsItem = NewsItem(
    headline: string, category: string, source: string, sentiment: string,
    timestamp: string, blurb: string, live: Option<LiveFields>)

  /** One row of a regional indicator table. `None` stands for a missing value. */
  datatype MacroRow = MacroRow(
    indicator: string, current: Option<real>, previous: Option<real>,
    units: string, date: string, signal: string)

  /** The provider-specific values adapters put under `extra`. */
  datatype ExtraValue =
    | NewsByRegion(news: map<string, seq<NewsItem>>)
    | MacroTables(tables: map<string, seq<MacroRow>>)

  /** `SourceResult`: context lines in discovery order, feedback in append
      order, time series by name and provider extras by key. Values are
      immutable, so two results never share a container. */
  datatype SourceResult = SourceResult(
    contextLines: seq<string>,
    feedback: seq<Feedback>,
    timeseries: map<string, TimeSeriesPayload>,
    extra: map<string, ExtraValue>)
  {
    predicate IsEmpty()
    {
      contextLines == [] && feedback == [] && timeseries == map[] && extra == map[]
    }

    /** `result.context_lines.append(line)`. */
    function AddLine(line: string): (r: SourceResult)
      ensures r.contextLines == contextLines + [line]
      ensures r.feedback == feedback && r.timeseries == timeseries && r.extra == extra
    {
      this.(contextLines := contextLines + [line])
    }

    /** `result.feedback.append((level, message))`. */
    function AddFeedback(level: Level, message: string): (r: SourceResult)
      ensures r.feedback == feedback + [Feedback(level, message)]
      ensures r.contextLines == contextLines && r.timeseries == timeseries && r.extra == extra
    {
      this.(feedback := feedback + [Feedback(level, message)])
    }
  }

  /** `SourceResult()`: every container starts empty. */
  function NewSourceResult(): (r: SourceResult)
    ensures r.IsEmpty()
  {
    SourceResult([], [], map[], map[])
  }

  /** A result holding one feedback entry and nothing else. */
  predicate OnlyFeedback(r: SourceResult, level: Level)
  {
    r.contextLines == [] && r.timeseries == map[] && r.extra == map[]
    && |r.feedback| == 1 && r.feedback[0].level == level
  }

  /** How many entries of `fb` carry `level`. */
  function CountLevel(fb: seq<Feedback>, level: Level): (n: nat)
    ensures n <= |fb|
  {
    if |fb| == 0 then 0
    else (if fb[0].level == level then 1 else 0) + CountLevel(fb[1..], level)
  }

  lemma {:induction false} CountLevelAppend(a: seq<Feedback>, b: seq<Feedback>, level: Level)
    ensures CountLevel(a + b, level) == CountLevel(a, level) + CountLevel(b, level)
  {
    if |a| > 0 {
      assert (a + b)[1..] == a[1..] + b;
      CountLevelAppend(a[1..], b, level);
    } else {
      assert a + b == b;
    }
  }

  /** A feedback list of warnings only counts every entry as a warning and
      none as info. */
  lemma {:induction false} WarningsOnly(fb: seq<Feedback>)
    requires forall f <- fb :: f.level == Warning
    ensures CountLevel(fb, Warning) == |fb| && CountLevel(fb, Info) == 0
  {
    if |fb| > 0 {
      assert forall f <- fb[1..] :: f in fb;
      WarningsOnly(fb[1..]);
    }
  }

  /** Warnings followed by the info entry `message` exactly when `noLines`:
      one info entry exactly when there are no lines, and every warning
      kept. */
  lemma InfoTail(fb: seq<Feedback>, noLines: bool, message: string)
    requires forall f <- fb :: f.level == Warning
    ensures CountLevel(fb + (if noLines then [Feedback(Info, message)] else []), Info) == if noLines then 1 else 0
    ensures CountLevel(fb + (if noLines then [Feedback(Info, message)] else []), Warning) == |fb|
  {
    var tail := if noLines then [Feedback(Info, message)] else [];
    CountLevelAppend(fb, tail, Info);
    CountLevelAppend(fb, tail, Warning);
    WarningsOnly(fb);
    if noLines {
      assert tail[1..] == [];
    }
  }

  /** `api_key or os.getenv(variable, "")`: the argument when it is a
      non-empty string, the environment otherwise. */
  function ApiKey(apiKey: Option<string>, env: string -> string, variable: string): (key: string)
    ensures apiKey.Some? && apiKey.value != "" ==> key == apiKey.value
    ensures apiKey.None? || apiKey.value == "" ==> key == env(variable)
  {
    if apiKey.Some? && apiKey.value != "" then apiKey.value else env(variable)
  }

  /** Exceptions that escape an adapter instead of becoming feedback. */
  datatype PyError = KeyError(key: string) | TypeError(message: string)

  /** A call either returns a value or raises. */
  datatype Outcome<+T> = Returned(value: T) | Raised(error: PyError)

  /** The text of numbers and dates, which the model leaves to the platform:
      `str(x)`, `f"{x:.Nf}"`, `f"{x:+.Nf}"`, `f"{x:,.Nf}"`, `round(x, N)` and
      a date's `strftime("%d/%m/%Y")`. */
  datatype Formats = Formats(
    str: real -> string,
    fixed: (real, nat) -> string,
    signed: (real, nat) -> string,
    grouped: (real, nat) -> string,
    round: (real, nat) -> real,
    dayMonthYear: string -> string)

  /** A resolved news timestamp: its `isoformat()` text and its
      `"%Y-%m-%d %H:%M"` text. */
  datatype Instant = Instant(iso: string, minute: string)

  /** The change text of an indicator line: `" (Δ <signed diff> <units>)"`
      when both values are known, empty otherwise. */
  function DiffText(row: MacroRow, fmt: Formats): (t: string)
    ensures t == "" <==> row.current.None? || row.previous.None?
    ensures t != "" ==> " (Δ " <= t
  {
    if row.current.Some? && row.previous.Some? then
      " (Δ " + fmt.signed(row.current.value - row.previous.value, 2) + " " + row.units + ")"
    else ""
  }

  /** The context line of one indicator row under a region label:
      `"<label>: <indicator> <current> <units><diff>. <signal>"`, where a
      missing current value prints as `None`. */
  function MacroLine(regionLabel: string, row: MacroRow, fmt: Formats): (line: string)
    ensures regionLabel <= line
  {
    var current := match row.current case Some(c) => fmt.str(c) case None => "None";
    regionLabel + (": " + row.indicator + " " + current + " " + row.units + DiffText(row, fmt) + ". " + row.signal)
  }

  /** The lines of a region's rows, one per row, in row order. */
  function MacroLines(regionLabel: string, rows: seq<MacroRow>, fmt: Formats): (lines: seq<string>)
    ensures |lines| == |rows|
    ensures forall i :: 0 <= i < |rows| ==> lines[i] == MacroLine(regionLabel, rows[i], fmt)
  {
    if |rows| == 0 then [] else [MacroLine(regionLabel, rows[0], fmt)] + MacroLines(regionLabel, rows[1..], fmt)
  }
}
