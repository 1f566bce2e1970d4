/** Merging per-source context lines into one prompt string
    (core/context_builder.py). The mapping is given as its items in
    iteration order. */
module ContextBuilder {
  import opened Text

  /** The header chunk that announces a source. */
  function Header(sourceName: string): (h: string)
    ensures |h| == |"Fuente: "| + |sourceName|
    ensures h[..|"Fuente: "|] == "Fuente: "
    ensures forall i :: 0 <= i < |sourceName| ==> h[|"Fuente: "| + i] == UpperChar(sourceName[i])
  {
    "Fuente: " + Upper(sourceName)
  }

  /** The chunks one source adds: nothing when it has no lines, otherwise an
      optional header and then its lines joined by single newlines. */
  function SourceChunks(source: (string, seq<string>), includeHeaders: bool): (r: seq<string>)
    ensures |source.1| == 0 <==> r == []
    ensures |source.1| > 0 ==> |r| == (if includeHeaders then 2 else 1) && r[|r| - 1] == Join("\n", source.1)
    ensures |source.1| > 0 && includeHeaders ==> r[0] == Header(source.0)
  {
    if |source.1| == 0 then []
    else (if includeHeaders then [Header(source.0)] else []) + [Join("\n", source.1)]
  }

  /** The chunk list the loop builds, source by source in iteration order. */
  function Chunks(sources: seq<(string, seq<string>)>, includeHeaders: bool): (r: seq<string>)
    ensures |r| == (if includeHeaders then 2 else 1) * |NonEmpty(sources)|
  {
    if |sources| == 0 then []
    else SourceChunks(sources[0], includeHeaders) + Chunks(sources[1..], includeHeaders)
  }

  /** `compose_context(source_context, include_headers)`. */
  function ComposeContext(sources: seq<(string, seq<string>)>, includeHeaders: bool): (r: string)
    ensures !includeHeaders ==> r == Join("\n\n", Bodies(NonEmpty(sources)))
    ensures includeHeaders ==> r == Join("\n\n", Headed(NonEmpty(sources)))
  {
    if includeHeaders then
      HeadedChunks(sources);
      Join("\n\n", Chunks(sources, includeHeaders))
    else
      BodiesChunks(sources);
      Join("\n\n", Chunks(sources, includeHeaders))
  }

  /** The sources that have at least one line, in their order. */
  function NonEmpty(sources: seq<(string, seq<string>)>): (r: seq<(string, seq<string>)>)
    ensures forall src <- r :: |src.1| > 0 && src in sources
    ensures forall src <- sources :: |src.1| > 0 ==> src in r
    ensures |r| <= |sources|
    ensures |r| == 0 <==> forall src <- sources :: |src.1| == 0
  {
    if |sources| == 0 then []
    else
      assert forall src <- sources :: src == sources[0] || src in sources[1..];
      if |sources[0].1| == 0 then NonEmpty(sources[1..])
      else [sources[0]] + NonEmpty(sources[1..])
  }

  /** Filtering a concatenation filters each run and keeps the runs in
      order: a kept source never moves ahead of one that came before it. */
  lemma {:induction false} NonEmptyAppend(a: seq<(string, seq<string>)>, b: seq<(string, seq<string>)>)
    ensures NonEmpty(a + b) == NonEmpty(a) + NonEmpty(b)
  {
    if |a| == 0 {
      assert a + b == b;
    } else {
      assert (a + b)[0] == a[0];
      assert (a + b)[1..] == a[1..] + b;
      NonEmptyAppend(a[1..], b);
    }
  }

  /** Each non-empty source's lines joined by single newlines. */
  function Bodies(sources: seq<(string, seq<string>)>): (r: seq<string>)
    ensures |r| == |sources|
    ensures forall i :: 0 <= i < |sources| ==> r[i] == Join("\n", sources[i].1)
  {
    if |sources| == 0 then [] else [Join("\n", sources[0].1)] + Bodies(sources[1..])
  }

  /** Chunks of a concatenation are the concatenated chunks: sources keep
      their relative order in the output. */
  lemma {:induction false} ChunksAppend(a: seq<(string, seq<string>)>, b: seq<(string, seq<string>)>, h: bool)
    ensures Chunks(a + b, h) == Chunks(a, h) + Chunks(b, h)
  {
    if |a| == 0 {
      assert a + b == b;
    } else {
      assert (a + b)[1..] == a[1..] + b;
      ChunksAppend(a[1..], b, h);
    }
  }

  /** A source with no lines contributes nothing, wherever it stands. */
  lemma {:induction false} EmptySourcesVanish(sources: seq<(string, seq<string>)>, h: bool)
    ensures Chunks(sources, h) == Chunks(NonEmpty(sources), h)
    ensures ComposeContext(sources, h) == ComposeContext(NonEmpty(sources), h)
  {
    if |sources| > 0 {
      EmptySourcesVanish(sources[1..], h);
      if |sources[0].1| > 0 {
        var ne := [sources[0]] + NonEmpty(sources[1..]);
        assert ne[0] == sources[0] && ne[1..] == NonEmpty(sources[1..]);
      }
    }
  }

  /** Without headers the output is exactly the non-empty bodies joined by
      blank lines. */
  lemma ComposeWithoutHeaders(sources: seq<(string, seq<string>)>)
    ensures Chunks(sources, false) == Bodies(NonEmpty(sources))
    ensures ComposeContext(sources, false) == Join("\n\n", Bodies(NonEmpty(sources)))
  {
    BodiesChunks(sources);
  }

  lemma {:induction false} BodiesChunks(sources: seq<(string, seq<string>)>)
    ensures Chunks(sources, false) == Bodies(NonEmpty(sources))
  {
    if |sources| > 0 {
      BodiesChunks(sources[1..]);
      if |sources[0].1| > 0 {
        var ne := [sources[0]] + NonEmpty(sources[1..]);
        assert ne[0] == sources[0] && ne[1..] == NonEmpty(sources[1..]);
      }
    }
  }

  /** Each source's header chunk immediately followed by its body chunk. */
  function Headed(sources: seq<(string, seq<string>)>): (r: seq<string>)
    ensures |r| == 2 * |sources|
  {
    if |sources| == 0 then []
    else [Header(sources[0].0), Join("\n", sources[0].1)] + Headed(sources[1..])
  }

  /** With headers, every non-empty source emits its header chunk and then its
      body chunk, in source order. */
  lemma ComposeWithHeaders(sources: seq<(string, seq<string>)>)
    ensures Chunks(sources, true) == Headed(NonEmpty(sources))
    ensures ComposeContext(sources, true) == Join("\n\n", Headed(NonEmpty(sources)))
  {
    HeadedChunks(sources);
  }

  lemma {:induction false} HeadedChunks(sources: seq<(string, seq<string>)>)
    ensures Chunks(sources, true) == Headed(NonEmpty(sources))
  {
    if |sources| > 0 {
      HeadedChunks(sources[1..]);
      if |sources[0].1| > 0 {
        var ne := [sources[0]] + NonEmpty(sources[1..]);
        assert ne[0] == sources[0] && ne[1..] == NonEmpty(sources[1..]);
        assert Headed(ne) == [Header(sources[0].0), Join("\n", sources[0].1)] + Headed(NonEmpty(sources[1..]));
      }
    }
  }

  /** The k-th non-empty source owns chunks 2k (its header) and 2k+1 (its body). */
  lemma {:induction false} HeadedAt(sources: seq<(string, seq<string>)>, k: nat)
    requires k < |sources|
    ensures Headed(sources)[2 * k] == Header(sources[k].0)
    ensures Headed(sources)[2 * k + 1] == Join("\n", sources[k].1)
  {
    if k > 0 {
      HeadedAt(sources[1..], k - 1);
    }
  }

  /** An input whose every source is empty, the empty input included, gives
      the empty string; with headers on, that is the only way to get it. */
  lemma ComposeEmptyIff(sources: seq<(string, seq<string>)>, h: bool)
    ensures (forall src <- sources :: |src.1| == 0) ==> ComposeContext(sources, h) == ""
    ensures h && ComposeContext(sources, h) == "" ==> forall src <- sources :: |src.1| == 0
  {
    EmptySourcesVanish(sources, h);
    if forall src <- sources :: |src.1| == 0 {
      NonEmptyOfAllEmpty(sources);
    }
    if h && exists src <- sources :: |src.1| > 0 {
      var src :| src in sources && |src.1| > 0;
      NonEmptyKeeps(sources, src);
      ComposeWithHeaders(sources);
      var chunks := Chunks(sources, true);
      HeadedAt(NonEmpty(sources), 0);
      JoinLength("\n\n", chunks);
      SumLengthsAtLeast(chunks, 0);
      assert |Header(NonEmpty(sources)[0].0)| > 0;
    }
  }

  lemma {:induction false} NonEmptyOfAllEmpty(sources: seq<(string, seq<string>)>)
    requires forall src <- sources :: |src.1| == 0
    ensures NonEmpty(sources) == []
  {
    if |sources| > 0 {
      assert sources[0] in sources;
      assert forall src <- sources[1..] :: src in sources;
      NonEmptyOfAllEmpty(sources[1..]);
    }
  }

  lemma {:induction false} NonEmptyKeeps(sources: seq<(string, seq<string>)>, src: (string, seq<string>))
    requires src in sources && |src.1| > 0
    ensures |NonEmpty(sources)| > 0
  {
    if |sources[0].1| == 0 {
      assert src in sources[1..];
      NonEmptyKeeps(sources[1..], src);
    }
  }

  lemma {:induction false} SumLengthsAtLeast(parts: seq<string>, i: nat)
    requires i < |parts|
    ensures SumLengths(parts) >= |parts[i]|
  {
    if i > 0 {
      SumLengthsAtLeast(parts[1..], i - 1);
    }
  }

  /** Composing two runs of sources: the second run's text follows the
      first's after one blank line, and a run that contributes nothing leaves
      the other's text as it is. */
  lemma ComposeAppend(a: seq<(string, seq<string>)>, b: seq<(string, seq<string>)>, h: bool)
    ensures |Chunks(a, h)| == 0 ==> ComposeContext(a + b, h) == ComposeContext(b, h)
    ensures |Chunks(b, h)| == 0 ==> ComposeContext(a + b, h) == ComposeContext(a, h)
    ensures |Chunks(a, h)| > 0 && |Chunks(b, h)| > 0 ==>
      ComposeContext(a + b, h) == ComposeContext(a, h) + "\n\n" + ComposeContext(b, h)
  {
    ChunksAppend(a, b, h);
    if |Chunks(a, h)| > 0 && |Chunks(b, h)| > 0 {
      JoinAppend("\n\n", Chunks(a, h), Chunks(b, h));
    } else if |Chunks(a, h)| == 0 {
      assert Chunks(a + b, h) == Chunks(b, h);
    } else {
      assert Chunks(a + b, h) == Chunks(a, h);
    }
  }

  /** One source with lines: its upper-cased header, a blank line, then its
      lines one per line. */
  lemma ComposeSingleSource(name: string, lines: seq<string>)
    requires |lines| > 0
    ensures ComposeContext([(name, lines)], true) == "Fuente: " + Upper(name) + "\n\n" + Join("\n", lines)
  {
    var chunks := [Header(name), Join("\n", lines)];
    assert [(name, lines)][1..] == [];
    assert Chunks([(name, lines)], true) == chunks;
    assert chunks[1..] == [Join("\n", lines)];
    assert Join("\n\n", chunks) == Header(name) + "\n\n" + Join("\n\n", [Join("\n", lines)]);
  }

  /** `{"A": ["x"], "B": []}` gives a header block for A only. */
  lemma ComposeExample()
    ensures ComposeContext([("A", ["x"]), ("B", [])], true) == "Fuente: A\n\nx"
  {
    assert Chunks([("A", ["x"]), ("B", [])], true) == [Header("A"), "x"];
  }
}
