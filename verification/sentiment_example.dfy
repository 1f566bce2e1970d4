/** A worked instance of the single-axis rule of the sentiment analyzer
    (processors/sentiment_analyzer.py): a text that names only political-positive
    keywords. */
module SentimentExample {
  import opened Dicts
  import opened Text
  import opened SentimentAnalyzer

  /** Two political-positive keywords ("acuerdo" and "cooperación") and
      none of the other five lists. */
  const AcuerdoText := "acuerdo y cooperación en la región"

  /** The characters the text is made of. */
  const AcuerdoChars: set<char> := {' ', 'a', 'c', 'd', 'e', 'g', 'i', 'l', 'n', 'o', 'p', 'r', 'u', 'y', 'ó'}

  /** "acuerdo y cooperación en la región" scores (1, 0, 0), comes out
      ALZISTA and doubles a base rate of 1. */
  lemma AcuerdoExample()
    ensures var t := InferMarketTrend(AcuerdoText, None, 1.0);
      t.p == 1.0 && t.q == 0.0 && t.s == 0.0 && t.tendencia == "ALZISTA" && t.tasa == 2.0
    ensures AnalyzeNews(AcuerdoText).sentiment == "positive"
  {
    AcuerdoOnlyPolitical();
    OnlyPoliticalPositives(AcuerdoText, 1.0);
  }

  /** The text meets the single-axis rule's conditions: a political-positive
      keyword occurs in its lower-case form and no keyword of the other five
      lists does. */
  lemma AcuerdoOnlyPolitical()
    ensures exists w <- PoliticoPositivo :: Contains(Lower(AcuerdoText), w)
    ensures forall w <- PoliticoNegativo + CulturalPositivo + CulturalNegativo + SocialPositivo + SocialNegativo ::
      !Contains(Lower(AcuerdoText), w)
  {
    AcuerdoLower();
    AcuerdoHasAcuerdo();
    PoliticoNegativoAbsent();
    CulturalPositivoAbsent();
    CulturalNegativoAbsent();
    SocialPositivoAbsent();
    SocialNegativoAbsent();
    AbsentFromAll(AcuerdoText, PoliticoNegativo, CulturalPositivo, CulturalNegativo, SocialPositivo, SocialNegativo);
  }

  lemma AcuerdoHasAcuerdo()
    ensures exists w <- PoliticoPositivo :: Contains(AcuerdoText, w)
  {
    ContainsAt(AcuerdoText, "acuerdo", 0);
    assert PoliticoPositivo[0] == "acuerdo";
  }

  /** Five lists none of whose words occur are one such list. */
  lemma AbsentFromAll(hay: string, a: seq<string>, b: seq<string>, c: seq<string>, d: seq<string>, e: seq<string>)
    requires forall w <- a :: !Contains(hay, w)
    requires forall w <- b :: !Contains(hay, w)
    requires forall w <- c :: !Contains(hay, w)
    requires forall w <- d :: !Contains(hay, w)
    requires forall w <- e :: !Contains(hay, w)
    ensures forall w <- a + b + c + d + e :: !Contains(hay, w)
  {
  }

  lemma AcuerdoLower()
    ensures Lower(AcuerdoText) == AcuerdoText
  {
    LowerFixed(AcuerdoText);
  }

  lemma AcuerdoCharsCover()
    ensures forall x <- AcuerdoText :: x in AcuerdoChars
  {
  }

  /** Words that each hold a character the text lacks do not occur in it. */
  lemma AbsentByChar(words: seq<string>, missing: string)
    requires |words| == |missing|
    requires forall i :: 0 <= i < |words| ==> missing[i] in words[i] && missing[i] !in AcuerdoChars
    ensures forall w <- words :: !Contains(AcuerdoText, w)
  {
    AcuerdoCharsCover();
    forall i | 0 <= i < |words|
      ensures !Contains(AcuerdoText, words[i])
    {
      MissingCharOf(AcuerdoText, AcuerdoChars, words[i], missing[i]);
    }
  }

  // "corrupción", "guerra", "educación" and "igualdad" are spelled with
  // letters of the text only; each is ruled out at the few places where one
  // of its letters stands.

  lemma PoliticoNegativoAbsent()
    ensures forall w <- PoliticoNegativo :: !Contains(AcuerdoText, w)
  {
    AbsentByChar(["crisis", "protesta", "conflicto", "tensión", "sanción"], "stfts");
    MissingAt(AcuerdoText, "corrupción", 4, {2});
    MissingAt(AcuerdoText, "guerra", 0, {30});
  }

  lemma CulturalPositivoAbsent()
    ensures forall w <- CulturalPositivo :: !Contains(AcuerdoText, w)
  {
    AbsentByChar(["arte", "innovación", "tolerancia", "cultura", "creatividad", "diversidad"], "tvtttv");
    NotAt(AcuerdoText, "educación", 0, 0);
    MissingAt(AcuerdoText, "educación", 2, {2});
  }

  lemma CulturalNegativoAbsent()
    ensures forall w <- CulturalNegativo :: !Contains(AcuerdoText, w)
  {
    AbsentByChar(["censura", "discriminación", "abandono", "crítica", "represión", "intolerancia"], "ssbíst");
  }

  lemma SocialPositivoAbsent()
    ensures forall w <- SocialPositivo :: !Contains(AcuerdoText, w)
  {
    AbsentByChar(["empleo", "salud", "bienestar", "prosperidad", "crecimiento", "desarrollo"], "msbsms");
    MissingAt(AcuerdoText, "igualdad", 1, {30});
  }

  lemma SocialNegativoAbsent()
    ensures forall w <- SocialNegativo :: !Contains(AcuerdoText, w)
  {
    AbsentByChar(["pobreza", "violencia", "inseguridad", "desempleo", "recesión", "crisis", "conflicto"], "bvssssf");
  }
}
