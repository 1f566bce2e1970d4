/** Order-preserving, case-insensitive keyword filter over text lines
    (processors/keyword_filter.py). */
module KeywordFilter {
  import opened Text

  /** The keywords, lower-cased, with empty ones dropped, in their order. */
  function Normalize(keywords: seq<string>): (ks: seq<string>)
    ensures |ks| <= |keywords|
    ensures forall k <- ks :: k != "" && k == Lower(k)
    ensures forall k <- keywords :: k != "" ==> Lower(k) in ks
  {
    if |keywords| == 0 then []
    else if keywords[0] == "" then Normalize(keywords[1..])
    else
      LowerIdempotent(keywords[0]);
      assert forall k <- keywords[1..] :: k in keywords;
      [Lower(keywords[0])] + Normalize(keywords[1..])
  }

  /** A line is kept when its lower-cased text contains some keyword. */
  predicate Hit(line: string, normalized: seq<string>): (h: bool)
    ensures |normalized| == 0 ==> !h
    ensures Lower(line) in normalized ==> h
    ensures h ==> exists k <- normalized :: |k| <= |line|
  {
    exists k <- normalized :: Contains(Lower(line), k)
  }

  /** The filtering loop: kept lines in their original order. */
  function Keep(lines: seq<string>, normalized: seq<string>): (kept: seq<string>)
    ensures |kept| <= |lines|
    ensures forall l <- kept :: Hit(l, normalized)
  {
    if |lines| == 0 then []
    else (if Hit(lines[0], normalized) then [lines[0]] else []) + Keep(lines[1..], normalized)
  }

  /** `filter_lines_by_keywords(lines, keywords)`. */
  function FilterLinesByKeywords(lines: seq<string>, keywords: seq<string>): (r: seq<string>)
    ensures |r| <= |lines|
    ensures |Normalize(keywords)| > 0 ==> forall l <- r :: Hit(l, Normalize(keywords))
    ensures (exists k <- keywords :: k != "") ==> forall l <- r :: Hit(l, Normalize(keywords))
  {
    var normalized := Normalize(keywords);
    if |normalized| == 0 then lines else Keep(lines, normalized)
  }

  /** `sub` is `s` with some elements removed, order kept. */
  predicate IsSubsequence<T(==)>(sub: seq<T>, s: seq<T>)
    decreases |s|
  {
    |sub| == 0 ||
    (|s| > 0 && ((sub[0] == s[0] && IsSubsequence(sub[1..], s[1..])) || IsSubsequence(sub, s[1..])))
  }

  /** When every keyword is empty, the lines come back unchanged. */
  lemma {:induction false} NoKeywordsKeepsAll(lines: seq<string>, keywords: seq<string>)
    requires forall k <- keywords :: k == ""
    ensures FilterLinesByKeywords(lines, keywords) == lines
  {
    if |keywords| > 0 {
      assert forall k <- keywords[1..] :: k in keywords;
      NoKeywordsKeepsAll(lines, keywords[1..]);
      assert keywords[0] in keywords;
      assert Normalize(keywords) == Normalize(keywords[1..]);
    }
  }

  lemma {:induction false} KeepIsSubsequence(lines: seq<string>, normalized: seq<string>)
    ensures IsSubsequence(Keep(lines, normalized), lines)
  {
    if |lines| > 0 {
      KeepIsSubsequence(lines[1..], normalized);
      var rest := Keep(lines[1..], normalized);
      if Hit(lines[0], normalized) {
        assert Keep(lines, normalized) == [lines[0]] + rest;
        assert ([lines[0]] + rest)[1..] == rest;
      } else {
        assert Keep(lines, normalized) == rest;
      }
    }
  }

  /** The output is a subsequence of the input, in the input's order. */
  lemma FilterIsSubsequence(lines: seq<string>, keywords: seq<string>)
    ensures IsSubsequence(FilterLinesByKeywords(lines, keywords), lines)
  {
    if |Normalize(keywords)| == 0 {
      SubsequenceReflexive(lines);
    } else {
      KeepIsSubsequence(lines, Normalize(keywords));
    }
  }

  lemma {:induction false} SubsequenceReflexive<T>(s: seq<T>)
    ensures IsSubsequence(s, s)
  {
    if |s| > 0 {
      SubsequenceReflexive(s[1..]);
    }
  }

  /** Keep retains exactly the lines that hit. */
  lemma {:induction false} KeepMembers(lines: seq<string>, normalized: seq<string>)
    ensures forall l <- Keep(lines, normalized) :: l in lines && Hit(l, normalized)
    ensures forall l <- lines :: Hit(l, normalized) ==> l in Keep(lines, normalized)
  {
    if |lines| > 0 {
      KeepMembers(lines[1..], normalized);
      assert forall l <- lines :: l == lines[0] || l in lines[1..];
    }
  }

  /** Soundness and completeness: with some non-empty keyword, a line is in
      the output exactly when its lower-cased text contains a lower-cased
      keyword. */
  lemma FilterKeepsExactlyHits(lines: seq<string>, keywords: seq<string>, line: string)
    requires exists k <- keywords :: k != ""
    requires line in lines
    ensures line in FilterLinesByKeywords(lines, keywords) <==>
      exists k <- keywords :: k != "" && Contains(Lower(line), Lower(k))
  {
    var normalized := Normalize(keywords);
    var k0 :| k0 in keywords && k0 != "";
    assert Lower(k0) in normalized;
    KeepMembers(lines, normalized);
    if Hit(line, normalized) {
      var k :| k in normalized && Contains(Lower(line), k);
      NormalizedComesFrom(keywords, k);
    }
  }

  /** Every normalized keyword is the lower-case of a non-empty keyword. */
  lemma {:induction false} NormalizedComesFrom(keywords: seq<string>, k: string)
    requires k in Normalize(keywords)
    ensures exists w <- keywords :: w != "" && Lower(w) == k
  {
    if keywords[0] == "" || k != Lower(keywords[0]) {
      NormalizedComesFrom(keywords[1..], k);
      var w :| w in keywords[1..] && w != "" && Lower(w) == k;
      assert w in keywords;
    }
  }

  lemma {:induction false} KeepAllHits(lines: seq<string>, normalized: seq<string>)
    requires forall l <- lines :: Hit(l, normalized)
    ensures Keep(lines, normalized) == lines
  {
    if |lines| > 0 {
      assert forall l <- lines[1..] :: l in lines;
      KeepAllHits(lines[1..], normalized);
    }
  }

  /** Filtering the output again with the same keywords changes nothing. */
  lemma FilterIdempotent(lines: seq<string>, keywords: seq<string>)
    ensures FilterLinesByKeywords(FilterLinesByKeywords(lines, keywords), keywords)
         == FilterLinesByKeywords(lines, keywords)
  {
    var normalized := Normalize(keywords);
    if |normalized| > 0 {
      KeepMembers(lines, normalized);
      KeepAllHits(Keep(lines, normalized), normalized);
    }
  }

  /** Case does not matter on the line side: two lines with the same
      lower-case text are both kept or both dropped. */
  lemma LineCaseIrrelevant(a: string, b: string, keywords: seq<string>)
    requires Lower(a) == Lower(b)
    ensures a in FilterLinesByKeywords([a], keywords) <==> b in FilterLinesByKeywords([b], keywords)
  {
    var normalized := Normalize(keywords);
    if |normalized| > 0 {
      assert Hit(a, normalized) <==> Hit(b, normalized);
      assert Keep([a], normalized) == (if Hit(a, normalized) then [a] else []);
      assert Keep([b], normalized) == (if Hit(b, normalized) then [b] else []);
    }
  }

  /** Case does not matter on the keyword side either. */
  lemma {:induction false} KeywordCaseIrrelevant(lines: seq<string>, keywords: seq<string>)
    ensures FilterLinesByKeywords(lines, Normalize(keywords)) == FilterLinesByKeywords(lines, keywords)
  {
    NormalizeIdempotent(keywords);
  }

  lemma {:induction false} NormalizeIdempotent(keywords: seq<string>)
    ensures Normalize(Normalize(keywords)) == Normalize(keywords)
  {
    if |keywords| > 0 {
      NormalizeIdempotent(keywords[1..]);
      if keywords[0] != "" {
        var n := Normalize(keywords);
        assert n == [Lower(keywords[0])] + Normalize(keywords[1..]);
        assert n[1..] == Normalize(keywords[1..]);
        assert Lower(keywords[0]) != "";
        LowerIdempotent(keywords[0]);
      }
    }
  }
}
