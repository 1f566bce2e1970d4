/** Keyword sentiment scoring and the truth-table market trend
    (processors/sentiment_analyzer.py).

    A text is scored on three axes (political, cultural, social). Each axis
    counts how many of its positive and of its negative keywords occur in the
    lower-cased text, and clips the normalised difference at zero. The three
    scores, reduced to bits, select a row of a truth table whose scenario
    columns decide between a bullish and a bearish trend. */
module SentimentAnalyzer {
  import opened Dicts
  import opened Text

  /** The positive and the negative keywords of one axis. */
  datatype Polarity = Polarity(positivo: seq<string>, negativo: seq<string>)

  /** A lexicon with the three axes the scorer reads. */
  datatype Lexicon = Lexicon(politico: Polarity, cultural: Polarity, social: Polarity)

  const PoliticoPositivo: seq<string> :=
    ["acuerdo", "estabilidad", "cooperación", "democracia", "paz", "diplomacia", "alianza"]
  const PoliticoNegativo: seq<string> :=
    ["crisis", "corrupción", "protesta", "conflicto", "guerra", "tensión", "sanción"]
  const CulturalPositivo: seq<string> :=
    ["arte", "innovación", "educación", "tolerancia", "cultura", "creatividad", "diversidad"]
  const CulturalNegativo: seq<string> :=
    ["censura", "discriminación", "abandono", "crítica", "represión", "intolerancia"]
  const SocialPositivo: seq<string> :=
    ["empleo", "igualdad", "salud", "bienestar", "prosperidad", "crecimiento", "desarrollo"]
  const SocialNegativo: seq<string> :=
    ["pobreza", "violencia", "inseguridad", "desempleo", "recesión", "crisis", "conflicto"]

  /** `SENTIMENT_DICTIONARY`. */
  const SentimentDictionary: Lexicon := Lexicon(
    Polarity(PoliticoPositivo, PoliticoNegativo),
    Polarity(CulturalPositivo, CulturalNegativo),
    Polarity(SocialPositivo, SocialNegativo))

  /** Every keyword of a lexicon. */
  function AllWords(dic: Lexicon): seq<string>
  {
    dic.politico.positivo + dic.politico.negativo
    + dic.cultural.positivo + dic.cultural.negativo
    + dic.social.positivo + dic.social.negativo
  }

  /** The number of listed words that occur in the text: a word counts once
      however often it occurs. */
  function Present(words: seq<string>, texto: string): (n: nat)
    ensures n <= |words|
    ensures n == 0 <==> forall w <- words :: !Contains(texto, w)
    ensures n == |words| <==> forall w <- words :: Contains(texto, w)
  {
    if |words| == 0 then 0
    else
      var rest := Present(words[1..], texto);
      assert words[0] in words;
      assert forall w <- words :: w == words[0] || w in words[1..];
      assert forall w <- words[1..] :: w in words;
      (if Contains(texto, words[0]) then 1 else 0) + rest
  }

  /** One axis: `max(0, (pos - neg) / total)` with `total` the number of hits,
      or 1 when there are none. */
  function AxisScore(pos: nat, neg: nat): (score: real)
    ensures 0.0 <= score <= 1.0
    ensures score > 0.0 <==> pos > neg
    ensures score == 1.0 <==> pos > 0 && neg == 0
  {
    var total := if pos + neg > 0 then pos + neg else 1;
    var raw := (pos - neg) as real / total as real;
    RatioFacts(pos - neg, total);
    if raw > 0.0 then raw else 0.0
  }

  /** `d / total` for `|d| <= total`: at most 1, positive exactly when `d`
      is, and 1 exactly when `d` is the whole of `total`. */
  lemma RatioFacts(d: int, total: int)
    requires total > 0
    ensures (d as real / total as real) <= 1.0 <==> d <= total
    ensures (d as real / total as real) > 0.0 <==> d > 0
    ensures (d as real / total as real) == 1.0 <==> d == total
  {
    var r := d as real / total as real;
    assert r * total as real == d as real;
  }

  /** The three axis scores `(p, q, s)`. */
  datatype Axes = Axes(p: real, q: real, s: real)
  {
    /** `p + q + s`. */
    function Suma(): real
    {
      p + q + s
    }
  }

  predicate InUnit(a: Axes)
  {
    0.0 <= a.p <= 1.0 && 0.0 <= a.q <= 1.0 && 0.0 <= a.s <= 1.0
  }

  /** The score of one axis on an already lower-cased text. */
  function AxisOf(pol: Polarity, lowered: string): (score: real)
    ensures 0.0 <= score <= 1.0
    ensures score > 0.0 <==> Present(pol.positivo, lowered) > Present(pol.negativo, lowered)
  {
    AxisScore(Present(pol.positivo, lowered), Present(pol.negativo, lowered))
  }

  /** `calcular_valores_sentimiento(texto, dic)`: the text is lower-cased,
      the keywords are taken as written. */
  function SentimentValues(texto: string, dic: Lexicon): (a: Axes)
    ensures InUnit(a)
    ensures 0.0 <= a.Suma() <= 3.0
    ensures a.p > 0.0 <==> Present(dic.politico.positivo, Lower(texto)) > Present(dic.politico.negativo, Lower(texto))
    ensures a.q > 0.0 <==> Present(dic.cultural.positivo, Lower(texto)) > Present(dic.cultural.negativo, Lower(texto))
    ensures a.s > 0.0 <==> Present(dic.social.positivo, Lower(texto)) > Present(dic.social.negativo, Lower(texto))
  {
    var lowered := Lower(texto);
    Axes(AxisOf(dic.politico, lowered), AxisOf(dic.cultural, lowered), AxisOf(dic.social, lowered))
  }

  /** The overall label: positive above 0.3, negative below 0.1, neutral in
      between (both bounds included). */
  function Label(suma: real): (r: string)
    ensures r in {"positive", "negative", "neutral"}
    ensures r == "positive" <==> suma > 0.3
    ensures r == "negative" <==> suma < 0.1
  {
    if suma > 0.3 then "positive"
    else if suma < 0.1 then "negative"
    else "neutral"
  }

  /** The order of the three labels. */
  function LabelRank(r: string): int
  {
    if r == "positive" then 2 else if r == "negative" then 0 else 1
  }

  /** A larger sum never gets a lower label. */
  lemma LabelMonotone(x: real, y: real)
    requires x <= y
    ensures LabelRank(Label(x)) <= LabelRank(Label(y))
  {
  }

  /** The dictionary `analizar_sentimiento_noticia` returns. */
  datatype NewsSentiment = NewsSentiment(sentiment: string, p: real, q: real, s: real, score: real)

  /** `analizar_sentimiento_noticia(texto)`, on the built-in lexicon. */
  function AnalyzeNews(texto: string): (r: NewsSentiment)
    ensures r.score == r.p + r.q + r.s && 0.0 <= r.score <= 3.0
    ensures Axes(r.p, r.q, r.s) == SentimentValues(texto, SentimentDictionary)
    ensures r.sentiment == Label(r.score)
  {
    var a := SentimentValues(texto, SentimentDictionary);
    NewsSentiment(Label(a.Suma()), a.p, a.q, a.s, a.Suma())
  }

  /** One truth-table row: the `p`, `q`, `s` columns and the scenario
      columns that follow them. */
  datatype Row = Row(p: int, q: int, s: int, scenarios: seq<int>)

  /** `TRUTH_TABLE`. */
  const TruthTable: seq<Row> := [
    Row(0, 0, 0, [0, 0, 0, 0]),
    Row(0, 0, 1, [0, 0, 0, 1]),
    Row(0, 1, 0, [0, 0, 1, 0]),
    Row(0, 1, 1, [0, 1, 1, 1]),
    Row(1, 0, 0, [0, 1, 0, 0]),
    Row(1, 0, 1, [1, 0, 1, 1]),
    Row(1, 1, 0, [1, 1, 0, 1]),
    Row(1, 1, 1, [1, 1, 1, 1])
  ]

  /** `int(x > 0)`. */
  function Bin(x: real): (b: int)
    ensures b == 0 || b == 1
    ensures b == 1 <==> x > 0.0
  {
    if x > 0.0 then 1 else 0
  }

  predicate Matches(row: Row, pBin: int, qBin: int, sBin: int)
  {
    row.p == pBin && row.q == qBin && row.s == sBin
  }

  /** The index of the first row with the given bits, as `iloc[0]` of the
      filtered frame picks it. */
  function FirstMatch(table: seq<Row>, pBin: int, qBin: int, sBin: int): (r: Option<nat>)
    ensures r.Some? ==> r.value < |table| && Matches(table[r.value], pBin, qBin, sBin)
    ensures r.Some? ==> forall j :: 0 <= j < r.value ==> !Matches(table[j], pBin, qBin, sBin)
    ensures r.None? <==> forall j :: 0 <= j < |table| ==> !Matches(table[j], pBin, qBin, sBin)
  {
    if |table| == 0 then None
    else if Matches(table[0], pBin, qBin, sBin) then Some(0)
    else
      match FirstMatch(table[1..], pBin, qBin, sBin)
      case None => None
      case Some(k) => Some(k + 1)
  }

  /** A row is bullish when some scenario column holds 1. */
  predicate RowBullish(row: Row): (b: bool)
    ensures row.scenarios == [] ==> !b
    ensures |row.scenarios| > 0 && row.scenarios[0] == 1 ==> b
    ensures b ==> exists i :: 0 <= i < |row.scenarios| && row.scenarios[i] == 1
  {
    1 in row.scenarios
  }

  /** The dictionary `inferir_tendencia_market` returns. */
  datatype Trend = Trend(
    p: real, q: real, s: real,
    pBin: int, qBin: int, sBin: int,
    esAlzista: bool, tasa: real, sumaValores: real, tendencia: string)

  /** `tasa_base * (1 + suma)` when bullish, `tasa_base * (1 - suma)`
      otherwise. */
  function Rate(tasaBase: real, suma: real, esAlzista: bool): (tasa: real)
    ensures esAlzista ==> tasa == tasaBase + tasaBase * suma
    ensures !esAlzista ==> tasa == tasaBase - tasaBase * suma
    ensures suma == 0.0 ==> tasa == tasaBase
    ensures tasaBase >= 0.0 && suma >= 0.0 && esAlzista ==> tasa >= tasaBase
    ensures tasaBase >= 0.0 && suma >= 0.0 && !esAlzista ==> tasa <= tasaBase
  {
    if esAlzista then tasaBase * (1.0 + suma) else tasaBase * (1.0 - suma)
  }

  /** The rate is the base moved by `tasaBase * suma`, up when bullish and
      down otherwise. */
  lemma RateSplit(tasaBase: real, suma: real)
    ensures Rate(tasaBase, suma, true) == tasaBase + tasaBase * suma
    ensures Rate(tasaBase, suma, false) == tasaBase - tasaBase * suma
    ensures tasaBase >= 0.0 && suma >= 0.0 ==> tasaBase * suma >= 0.0
    ensures suma == 0.0 ==> Rate(tasaBase, suma, true) == tasaBase && Rate(tasaBase, suma, false) == tasaBase
  {
  }

  /** The decision and the rate, from the three scores. */
  function TrendFromAxes(a: Axes, table: seq<Row>, tasaBase: real): (t: Trend)
    ensures t.p == a.p && t.q == a.q && t.s == a.s && t.sumaValores == a.Suma()
    ensures t.pBin == Bin(a.p) && t.qBin == Bin(a.q) && t.sBin == Bin(a.s)
    ensures t.tendencia == (if t.esAlzista then "ALZISTA" else "BAJISTA")
    ensures t.tendencia == "ALZISTA" <==> t.esAlzista
    ensures t.tasa == Rate(tasaBase, a.Suma(), t.esAlzista)
    ensures FirstMatch(table, t.pBin, t.qBin, t.sBin).None? ==> (t.esAlzista <==> a.Suma() > 0.5)
    ensures FirstMatch(table, t.pBin, t.qBin, t.sBin).Some? ==>
      (t.esAlzista <==> RowBullish(table[FirstMatch(table, t.pBin, t.qBin, t.sBin).value]))
  {
    assert "BAJISTA"[0] != "ALZISTA"[0];
    var pBin, qBin, sBin := Bin(a.p), Bin(a.q), Bin(a.s);
    var esAlzista :=
      match FirstMatch(table, pBin, qBin, sBin)
      case None => a.Suma() > 0.5
      case Some(i) => RowBullish(table[i]);
    Trend(a.p, a.q, a.s, pBin, qBin, sBin, esAlzista, Rate(tasaBase, a.Suma(), esAlzista), a.Suma(),
          if esAlzista then "ALZISTA" else "BAJISTA")
  }

  /** `inferir_tendencia_market(texto, tabla_verdad, tasa_base)`: `None`
      selects the built-in table. */
  function InferMarketTrend(texto: string, tablaVerdad: Option<seq<Row>>, tasaBase: real): (t: Trend)
    ensures Axes(t.p, t.q, t.s) == SentimentValues(texto, SentimentDictionary)
    ensures InUnit(Axes(t.p, t.q, t.s)) && t.sumaValores == t.p + t.q + t.s
    ensures t.pBin == Bin(t.p) && t.qBin == Bin(t.q) && t.sBin == Bin(t.s)
    ensures t.tendencia == "ALZISTA" <==> t.esAlzista
    ensures t.tendencia == "BAJISTA" <==> !t.esAlzista
    ensures t.tasa == Rate(tasaBase, t.sumaValores, t.esAlzista)
    // A given table: the first row with the three bits decides, and with
    // none the sum must exceed 0.5.
    ensures FirstMatch(tablaVerdad.GetOr(TruthTable), t.pBin, t.qBin, t.sBin).None? ==>
      (t.esAlzista <==> t.sumaValores > 0.5)
    ensures FirstMatch(tablaVerdad.GetOr(TruthTable), t.pBin, t.qBin, t.sBin).Some? ==>
      (t.esAlzista <==> RowBullish(tablaVerdad.GetOr(TruthTable)[FirstMatch(tablaVerdad.GetOr(TruthTable), t.pBin, t.qBin, t.sBin).value]))
    // The built-in table: bullish exactly when some score is positive, and
    // a bearish text keeps the base rate.
    ensures tablaVerdad.None? ==> (t.esAlzista <==> t.sumaValores > 0.0)
    ensures tablaVerdad.None? && !t.esAlzista ==> t.tasa == tasaBase
  {
    var a := SentimentValues(texto, SentimentDictionary);
    var table := tablaVerdad.GetOr(TruthTable);
    if tablaVerdad.None? then DefaultTableRule(a, tasaBase); TrendFromAxes(a, table, tasaBase)
    else TrendFromAxes(a, table, tasaBase)
  }

  // ---------------------------------------------------------------------
  // The decision rule

  /** When some row matches, the first matching row decides. */
  lemma RowDecides(a: Axes, table: seq<Row>, tasaBase: real, i: nat)
    requires i < |table| && Matches(table[i], Bin(a.p), Bin(a.q), Bin(a.s))
    requires forall j :: 0 <= j < i ==> !Matches(table[j], Bin(a.p), Bin(a.q), Bin(a.s))
    ensures TrendFromAxes(a, table, tasaBase).esAlzista <==> RowBullish(table[i])
  {
    var r := FirstMatch(table, Bin(a.p), Bin(a.q), Bin(a.s));
    assert r.Some?;
    assert r.value == i;
  }

  /** A matching row placed in front of a table overrides every later row. */
  lemma FirstRowWins(a: Axes, row: Row, rest: seq<Row>, tasaBase: real)
    requires Matches(row, Bin(a.p), Bin(a.q), Bin(a.s))
    ensures TrendFromAxes(a, [row] + rest, tasaBase).esAlzista <==> RowBullish(row)
  {
    RowDecides(a, [row] + rest, tasaBase, 0);
  }

  /** With no matching row the fallback applies: bullish exactly when the
      three scores sum to more than 0.5. */
  lemma FallbackRule(a: Axes, table: seq<Row>, tasaBase: real)
    requires forall j :: 0 <= j < |table| ==> !Matches(table[j], Bin(a.p), Bin(a.q), Bin(a.s))
    ensures TrendFromAxes(a, table, tasaBase).esAlzista <==> a.Suma() > 0.5
  {
  }

  /** Row `j` of the built-in table holds the bits of `j` in binary order and
      four 0/1 scenario columns; only the all-zero row is bearish. */
  lemma TruthTableRow(j: nat)
    requires j < 8
    ensures |TruthTable| == 8
    ensures TruthTable[j].p == j / 4 && TruthTable[j].q == (j / 2) % 2 && TruthTable[j].s == j % 2
    ensures |TruthTable[j].scenarios| == 4
    ensures forall v <- TruthTable[j].scenarios :: v == 0 || v == 1
    ensures RowBullish(TruthTable[j]) <==> j != 0
  {
    if j == 0 {
      assert TruthTable[0].scenarios == [0, 0, 0, 0];
    } else if j == 1 {
      assert TruthTable[1].scenarios[3] == 1;
    } else if j == 2 {
      assert TruthTable[2].scenarios[2] == 1;
    } else if j == 3 {
      assert TruthTable[3].scenarios[1] == 1;
    } else if j == 4 {
      assert TruthTable[4].scenarios[1] == 1;
    } else if j == 5 {
      assert TruthTable[5].scenarios[0] == 1;
    } else if j == 6 {
      assert TruthTable[6].scenarios[0] == 1;
    } else {
      assert TruthTable[7].scenarios[0] == 1;
    }
  }

  /** A row that is the only one with its bits is the row found. */
  lemma UniqueMatch(table: seq<Row>, i: nat, pBin: int, qBin: int, sBin: int)
    requires i < |table| && Matches(table[i], pBin, qBin, sBin)
    requires forall j :: 0 <= j < |table| && Matches(table[j], pBin, qBin, sBin) ==> j == i
    ensures FirstMatch(table, pBin, qBin, sBin) == Some(i)
  {
  }

  /** Every bit pattern has exactly one row in the built-in table: row
      `4p + 2q + s`. */
  lemma DefaultLookup(pBin: int, qBin: int, sBin: int)
    requires pBin in {0, 1} && qBin in {0, 1} && sBin in {0, 1}
    ensures FirstMatch(TruthTable, pBin, qBin, sBin) == Some(4 * pBin + 2 * qBin + sBin)
  {
    var i := 4 * pBin + 2 * qBin + sBin;
    TruthTableRow(i);
    forall j | 0 <= j < |TruthTable| && Matches(TruthTable[j], pBin, qBin, sBin)
      ensures j == i
    {
      TruthTableRow(j);
    }
    UniqueMatch(TruthTable, i, pBin, qBin, sBin);
  }

  /** With the built-in table a text is bullish exactly when some axis is
      positive, and the rate then grows by the sum of the scores; otherwise
      every score is 0 and the rate is the base rate. The built-in table
      therefore never predicts a rate below a non-negative base. */
  lemma DefaultTableRule(a: Axes, tasaBase: real)
    requires InUnit(a)
    ensures TrendFromAxes(a, TruthTable, tasaBase).esAlzista <==> a.Suma() > 0.0
    ensures TrendFromAxes(a, TruthTable, tasaBase).esAlzista ==>
      TrendFromAxes(a, TruthTable, tasaBase).tasa == tasaBase * (1.0 + a.Suma())
    ensures !TrendFromAxes(a, TruthTable, tasaBase).esAlzista ==>
      TrendFromAxes(a, TruthTable, tasaBase).tasa == tasaBase
    ensures tasaBase >= 0.0 ==> TrendFromAxes(a, TruthTable, tasaBase).tasa >= tasaBase
  {
    var t := TrendFromAxes(a, TruthTable, tasaBase);
    assert t.esAlzista <==> a.Suma() > 0.0 by {
      var i := 4 * Bin(a.p) + 2 * Bin(a.q) + Bin(a.s);
      DefaultLookup(Bin(a.p), Bin(a.q), Bin(a.s));
      TruthTableRow(i);
      MatchDecides(a, TruthTable, tasaBase, i);
      assert i == 0 <==> a.Suma() == 0.0;
    }
    assert a.Suma() >= 0.0;
    RateSplit(tasaBase, a.Suma());
    if !t.esAlzista {
      assert a.Suma() == 0.0;
      assert t.tasa == tasaBase;
    } else {
      assert t.tasa == tasaBase + tasaBase * a.Suma();
    }
  }

  /** The row `FirstMatch` finds decides. */
  lemma MatchDecides(a: Axes, table: seq<Row>, tasaBase: real, i: nat)
    requires FirstMatch(table, Bin(a.p), Bin(a.q), Bin(a.s)) == Some(i)
    ensures i < |table|
    ensures TrendFromAxes(a, table, tasaBase).esAlzista <==> RowBullish(table[i])
  {
  }

  /** The rate moves with the sum: up from the base when bullish, down when
      bearish (for a non-negative base), whatever the table. */
  lemma RateDirection(a: Axes, table: seq<Row>, tasaBase: real)
    requires InUnit(a) && tasaBase >= 0.0
    ensures TrendFromAxes(a, table, tasaBase).esAlzista ==> TrendFromAxes(a, table, tasaBase).tasa >= tasaBase
    ensures !TrendFromAxes(a, table, tasaBase).esAlzista ==> TrendFromAxes(a, table, tasaBase).tasa <= tasaBase
  {
    RateSplit(tasaBase, a.Suma());
  }

  // ---------------------------------------------------------------------
  // Scoring

  /** Two texts in which the same keywords occur get the same scores: only
      presence counts, never how often a word is repeated. */
  lemma {:induction false} PresentDependsOnPresence(words: seq<string>, t1: string, t2: string)
    requires forall w <- words :: Contains(t1, w) <==> Contains(t2, w)
    ensures Present(words, t1) == Present(words, t2)
  {
    if |words| > 0 {
      assert words[0] in words;
      assert forall w <- words[1..] :: w in words;
      PresentDependsOnPresence(words[1..], t1, t2);
    }
  }

  lemma PresenceDecides(t1: string, t2: string)
    requires forall w <- AllWords(SentimentDictionary) :: Contains(Lower(t1), w) <==> Contains(Lower(t2), w)
    ensures SentimentValues(t1, SentimentDictionary) == SentimentValues(t2, SentimentDictionary)
  {
    var d := SentimentDictionary;
    PresentDependsOnPresence(d.politico.positivo, Lower(t1), Lower(t2));
    PresentDependsOnPresence(d.politico.negativo, Lower(t1), Lower(t2));
    PresentDependsOnPresence(d.cultural.positivo, Lower(t1), Lower(t2));
    PresentDependsOnPresence(d.cultural.negativo, Lower(t1), Lower(t2));
    PresentDependsOnPresence(d.social.positivo, Lower(t1), Lower(t2));
    PresentDependsOnPresence(d.social.negativo, Lower(t1), Lower(t2));
  }

  /** Scoring ignores case: a text and its lower-case form score alike. */
  lemma CaseIgnored(texto: string, dic: Lexicon)
    ensures SentimentValues(Lower(texto), dic) == SentimentValues(texto, dic)
  {
    LowerIdempotent(texto);
  }

  /** On any lexicon, a text in which none of its keywords occurs scores 0
      on every axis. */
  lemma NoHitsScoreZero(texto: string, dic: Lexicon)
    requires forall w <- AllWords(dic) :: !Contains(Lower(texto), w)
    ensures SentimentValues(texto, dic) == Axes(0.0, 0.0, 0.0)
  {
    var lowered := Lower(texto);
    assert forall w <- dic.politico.positivo :: w in AllWords(dic);
    assert forall w <- dic.politico.negativo :: w in AllWords(dic);
    assert forall w <- dic.cultural.positivo :: w in AllWords(dic);
    assert forall w <- dic.cultural.negativo :: w in AllWords(dic);
    assert forall w <- dic.social.positivo :: w in AllWords(dic);
    assert forall w <- dic.social.negativo :: w in AllWords(dic);
  }

  /** A text in which no keyword occurs scores 0 on every axis, is labelled
      negative and, with the built-in table, is bearish at the base rate. The
      all-zero row decides this, not the fallback rule. */
  lemma NoKeywordText(texto: string, tasaBase: real)
    requires forall w <- AllWords(SentimentDictionary) :: !Contains(Lower(texto), w)
    ensures SentimentValues(texto, SentimentDictionary) == Axes(0.0, 0.0, 0.0)
    ensures AnalyzeNews(texto).sentiment == "negative"
    ensures FirstMatch(TruthTable, 0, 0, 0) == Some(0)
    ensures !InferMarketTrend(texto, None, tasaBase).esAlzista
    ensures InferMarketTrend(texto, None, tasaBase).tasa == tasaBase
    ensures InferMarketTrend(texto, None, tasaBase).tendencia == "BAJISTA"
  {
    NoHitsScoreZero(texto, SentimentDictionary);
    ZeroScoresBearish(texto, tasaBase);
  }

  /** Scores of 0 everywhere: negative label, and the all-zero row of the
      built-in table, which is bearish. */
  lemma ZeroScoresBearish(texto: string, tasaBase: real)
    requires SentimentValues(texto, SentimentDictionary) == Axes(0.0, 0.0, 0.0)
    ensures AnalyzeNews(texto).sentiment == "negative"
    ensures FirstMatch(TruthTable, 0, 0, 0) == Some(0)
    ensures !InferMarketTrend(texto, None, tasaBase).esAlzista
    ensures InferMarketTrend(texto, None, tasaBase).tasa == tasaBase
    ensures InferMarketTrend(texto, None, tasaBase).tendencia == "BAJISTA"
  {
    ZeroSumBearish(InferMarketTrend(texto, None, tasaBase), tasaBase);
    assert AnalyzeNews(texto).score == 0.0;
    DefaultLookup(0, 0, 0);
  }

  /** A trend of the built-in table whose scores sum to 0 is bearish at the
      base rate. */
  lemma ZeroSumBearish(t: Trend, tasaBase: real)
    requires t.sumaValores == 0.0 && (t.esAlzista <==> t.sumaValores > 0.0)
    requires t.tasa == Rate(tasaBase, t.sumaValores, t.esAlzista)
    requires t.tendencia == "ALZISTA" <==> t.esAlzista
    requires t.tendencia == "BAJISTA" <==> !t.esAlzista
    ensures !t.esAlzista && t.tasa == tasaBase && t.tendencia == "BAJISTA"
  {
  }

  /** The empty text is such a text. */
  lemma EmptyText(tasaBase: real)
    ensures SentimentValues("", SentimentDictionary) == Axes(0.0, 0.0, 0.0)
    ensures !InferMarketTrend("", None, tasaBase).esAlzista
    ensures AnalyzeNews("").sentiment == "negative"
  {
    NonEmptyWords();
    forall w <- AllWords(SentimentDictionary)
      ensures !Contains(Lower(""), w)
    {
      ContainsBySize(Lower(""), w);
    }
    NoKeywordText("", tasaBase);
  }

  lemma NonEmptyWords()
    ensures forall w <- AllWords(SentimentDictionary) :: |w| > 0
  {
  }

  /** "desempleo" contains "empleo": a text that mentions unemployment also
      scores a positive social hit, so the social axis stays at 0 for it
      unless another social word tips the balance. */
  lemma UnemploymentAlsoCountsEmployment(texto: string)
    requires Contains(Lower(texto), "desempleo")
    ensures Contains(Lower(texto), "empleo")
    ensures Present(SentimentDictionary.social.positivo, Lower(texto)) >= 1
    ensures Present(SentimentDictionary.social.negativo, Lower(texto)) >= 1
  {
    assert OccursAt("desempleo", "empleo", 3);
    ContainsAt("desempleo", "empleo", 3);
    ContainsTransitive(Lower(texto), "desempleo", "empleo");
    assert "empleo" in SentimentDictionary.social.positivo;
    assert "desempleo" in SentimentDictionary.social.negativo;
  }

  /** "crisis" and "conflicto" are negative on both the political and the
      social axis, so one of them pulls two scores down at once. */
  lemma SharedNegatives(texto: string)
    requires Contains(Lower(texto), "crisis")
    ensures Present(SentimentDictionary.politico.negativo, Lower(texto)) >= 1
    ensures Present(SentimentDictionary.social.negativo, Lower(texto)) >= 1
  {
    assert "crisis" in SentimentDictionary.politico.negativo;
    assert "crisis" in SentimentDictionary.social.negativo;
  }

  // ---------------------------------------------------------------------
  // Worked examples

  /** Political positive alone: row `[1, 0, 0 | 0, 1, 0, 0]` decides, so the
      trend is bullish and the base rate doubles. */
  lemma PoliticalOnlyExample()
    ensures TrendFromAxes(Axes(1.0, 0.0, 0.0), TruthTable, 1.0).esAlzista
    ensures TrendFromAxes(Axes(1.0, 0.0, 0.0), TruthTable, 1.0).tasa == 2.0
    ensures TrendFromAxes(Axes(1.0, 0.0, 0.0), TruthTable, 1.0).tendencia == "ALZISTA"
  {
    DefaultLookup(1, 0, 0);
  }

  /** A text whose only keywords are political positives: p = 1 and
      q = s = 0, a positive item, bullish through row `[1, 0, 0 | 0, 1, 0, 0]`
      with the rate doubled. */
  lemma OnlyPoliticalPositives(texto: string, tasaBase: real)
    requires exists w <- PoliticoPositivo :: Contains(Lower(texto), w)
    requires forall w <- PoliticoNegativo + CulturalPositivo + CulturalNegativo + SocialPositivo + SocialNegativo ::
      !Contains(Lower(texto), w)
    ensures SentimentValues(texto, SentimentDictionary) == Axes(1.0, 0.0, 0.0)
    ensures AnalyzeNews(texto).sentiment == "positive"
    ensures InferMarketTrend(texto, None, tasaBase).esAlzista
    ensures InferMarketTrend(texto, None, tasaBase).tasa == 2.0 * tasaBase
  {
    OnlyFirstAxisPositive(texto, SentimentDictionary);
    PoliticalOnlyBullish(texto, tasaBase);
  }

  /** The scores of a text that hits only words of the first positive list,
      for any lexicon. */
  lemma OnlyFirstAxisPositive(texto: string, dic: Lexicon)
    requires exists w <- dic.politico.positivo :: Contains(Lower(texto), w)
    requires forall w <- dic.politico.negativo + dic.cultural.positivo + dic.cultural.negativo
                         + dic.social.positivo + dic.social.negativo :: !Contains(Lower(texto), w)
    ensures SentimentValues(texto, dic) == Axes(1.0, 0.0, 0.0)
  {
    var lowered := Lower(texto);
    var rest := dic.politico.negativo + dic.cultural.positivo + dic.cultural.negativo
                + dic.social.positivo + dic.social.negativo;
    assert forall w <- dic.politico.negativo :: w in rest;
    assert forall w <- dic.cultural.positivo :: w in rest;
    assert forall w <- dic.cultural.negativo :: w in rest;
    assert forall w <- dic.social.positivo :: w in rest;
    assert forall w <- dic.social.negativo :: w in rest;
    assert Present(dic.politico.positivo, lowered) > 0;
  }

  /** Scores (1, 0, 0): positive label, bullish, rate doubled. */
  lemma PoliticalOnlyBullish(texto: string, tasaBase: real)
    requires SentimentValues(texto, SentimentDictionary) == Axes(1.0, 0.0, 0.0)
    ensures AnalyzeNews(texto).sentiment == "positive"
    ensures InferMarketTrend(texto, None, tasaBase).esAlzista
    ensures InferMarketTrend(texto, None, tasaBase).tasa == 2.0 * tasaBase
  {
    PoliticalOnlyTrend(SentimentValues(texto, SentimentDictionary), tasaBase);
    assert InferMarketTrend(texto, None, tasaBase) == TrendFromAxes(Axes(1.0, 0.0, 0.0), TruthTable, tasaBase);
    assert AnalyzeNews(texto).score == 1.0;
  }

  /** Under the built-in table, scores (1, 0, 0) are bullish and double the
      base rate. */
  lemma PoliticalOnlyTrend(a: Axes, tasaBase: real)
    requires a == Axes(1.0, 0.0, 0.0)
    ensures TrendFromAxes(a, TruthTable, tasaBase).esAlzista
    ensures TrendFromAxes(a, TruthTable, tasaBase).tasa == 2.0 * tasaBase
  {
    DefaultTableRule(a, tasaBase);
    RateSplit(tasaBase, 1.0);
    assert a.Suma() == 1.0;
  }
}
