/** String operations the system relies on: case mapping, substring search
    (Python's `needle in hay`), `str.join` and slicing.

    Case mapping covers ASCII and the Latin-1 letters (U+00C0 to U+00FE),
    which is where the Spanish lexicon and the region names live; every other
    character is left unchanged. */
module Text {

  predicate IsUpperChar(c: char)
  {
    ('A' <= c <= 'Z') || ('À' <= c <= 'Þ' && c != '×')
  }

  predicate IsLowerChar(c: char)
  {
    ('a' <= c <= 'z') || ('ß' < c <= 'þ' && c != '÷')
  }

  /** `c.lower()` on the covered range. */
  function LowerChar(c: char): (r: char)
    ensures IsUpperChar(c) ==> IsLowerChar(r)
    ensures !IsUpperChar(c) ==> r == c
  {
    if IsUpperChar(c) then (c as int + 32) as char else c
  }

  /** `c.upper()` on the covered range. */
  function UpperChar(c: char): (r: char)
    ensures IsLowerChar(c) ==> IsUpperChar(r)
    ensures !IsLowerChar(c) ==> r == c
  {
    if IsLowerChar(c) then (c as int - 32) as char else c
  }

  /** `s.lower()`. */
  function Lower(s: string): (r: string)
    ensures |r| == |s|
    ensures forall i :: 0 <= i < |s| ==> r[i] == LowerChar(s[i])
  {
    if |s| == 0 then "" else [LowerChar(s[0])] + Lower(s[1..])
  }

  /** `s.upper()`. */
  function Upper(s: string): (r: string)
    ensures |r| == |s|
    ensures forall i :: 0 <= i < |s| ==> r[i] == UpperChar(s[i])
  {
    if |s| == 0 then "" else [UpperChar(s[0])] + Upper(s[1..])
  }

  /** `s.title()`: a letter that follows a letter is lowered, any other
      letter is raised. `afterLetter` says whether the text before `s` ended
      in a letter. */
  function TitleFrom(s: string, afterLetter: bool): (r: string)
    ensures |r| == |s|
    ensures |s| > 0 ==> r[0] == (if afterLetter then LowerChar(s[0]) else UpperChar(s[0]))
    ensures forall i :: 0 < i < |s| ==> r[i] == (if IsCased(s[i - 1]) then LowerChar(s[i]) else UpperChar(s[i]))
  {
    if |s| == 0 then ""
    else
      var c := s[0];
      [if afterLetter then LowerChar(c) else UpperChar(c)] + TitleFrom(s[1..], IsCased(c))
  }

  /** A letter of either case. */
  predicate IsCased(c: char)
  {
    IsUpperChar(c) || IsLowerChar(c)
  }

  /** `s.title()`: the first letter of each run of letters is raised and the
      rest of the run is lowered. */
  function Title(s: string): (r: string)
    ensures |r| == |s|
    ensures |s| > 0 ==> r[0] == UpperChar(s[0])
    ensures forall i :: 0 < i < |s| ==> r[i] == (if IsCased(s[i - 1]) then LowerChar(s[i]) else UpperChar(s[i]))
  {
    TitleFrom(s, false)
  }

  /** Text without upper-case letters is its own lower-case form. */
  lemma LowerFixed(s: string)
    requires forall i :: 0 <= i < |s| ==> !IsUpperChar(s[i])
    ensures Lower(s) == s
  {
  }

  lemma LowerCharIdempotent(c: char)
    ensures LowerChar(LowerChar(c)) == LowerChar(c)
  {
  }

  /** Lower-casing twice is lower-casing once. */
  lemma {:induction false} LowerIdempotent(s: string)
    ensures Lower(Lower(s)) == Lower(s)
  {
    forall i | 0 <= i < |s|
      ensures Lower(Lower(s))[i] == Lower(s)[i]
    {
      LowerCharIdempotent(s[i]);
    }
  }

  /** `needle` occurs in `hay` starting at index `i`. */
  predicate OccursAt(hay: string, needle: string, i: int)
  {
    0 <= i && i + |needle| <= |hay| && hay[i..i + |needle|] == needle
  }

  /** `needle in hay`: some position of `hay` starts a copy of `needle`. */
  predicate Contains(hay: string, needle: string): (b: bool)
    ensures b ==> |needle| <= |hay|
    ensures hay == needle ==> b
  {
    assert OccursAt(hay, hay, 0);
    exists i | 0 <= i <= |hay| - |needle| :: OccursAt(hay, needle, i)
  }

  /** A witness position shows containment. */
  lemma ContainsAt(hay: string, needle: string, i: int)
    requires OccursAt(hay, needle, i)
    ensures Contains(hay, needle)
  {
  }

  /** Every character of a contained needle occurs in the hay, so one missing
      character refutes containment. */
  lemma MissingChar(hay: string, needle: string, c: char)
    requires c in needle && c !in hay
    ensures !Contains(hay, needle)
  {
    var k :| 0 <= k < |needle| && needle[k] == c;
    forall i | 0 <= i && i + |needle| <= |hay|
      ensures !OccursAt(hay, needle, i)
    {
      assert hay[i..i + |needle|][k] == hay[i + k];
    }
  }

  /** The same, when all that is known of the hay is which characters it
      can hold. */
  lemma MissingCharOf(hay: string, chars: set<char>, needle: string, c: char)
    requires forall x <- hay :: x in chars
    requires c in needle && c !in chars
    ensures !Contains(hay, needle)
  {
    MissingChar(hay, needle, c);
  }

  /** A copy of the needle cannot start where one of its characters would
      fall outside the hay or on a different character. */
  lemma NotAt(hay: string, needle: string, i: int, m: nat)
    requires m < |needle|
    requires i + m < 0 || i + m >= |hay| || hay[i + m] != needle[m]
    ensures !OccursAt(hay, needle, i)
  {
  }

  /** When every place where the `k`-th character of the needle stands in
      the hay fails to start a copy `k` characters earlier, the needle does
      not occur. */
  lemma MissingAt(hay: string, needle: string, k: nat, at: set<int>)
    requires k < |needle|
    requires forall j :: 0 <= j < |hay| && hay[j] == needle[k] ==> j in at
    requires forall j <- at :: !OccursAt(hay, needle, j - k)
    ensures !Contains(hay, needle)
  {
    forall i | 0 <= i <= |hay| - |needle|
      ensures !OccursAt(hay, needle, i)
    {
      assert hay[i..i + |needle|][k] == hay[i + k];
    }
  }

  /** The empty string is in every string, and nothing longer than the hay is. */
  lemma ContainsBySize(hay: string, needle: string)
    ensures |needle| == 0 ==> Contains(hay, needle)
    ensures |needle| > |hay| ==> !Contains(hay, needle)
  {
    if |needle| == 0 {
      assert OccursAt(hay, needle, 0);
    }
  }

  /** A needle found inside a bigger needle is found wherever that one is. */
  lemma ContainsTransitive(hay: string, mid: string, needle: string)
    requires Contains(hay, mid) && Contains(mid, needle)
    ensures Contains(hay, needle)
  {
    var i :| 0 <= i <= |hay| - |mid| && OccursAt(hay, mid, i);
    var j :| 0 <= j <= |mid| - |needle| && OccursAt(mid, needle, j);
    forall t | 0 <= t < |needle|
      ensures hay[i + j + t] == needle[t]
    {
      assert hay[i..i + |mid|][j + t] == hay[i + j + t];
      assert mid[j..j + |needle|][t] == mid[j + t];
    }
    assert hay[i + j..i + j + |needle|] == needle;
    ContainsAt(hay, needle, i + j);
  }

  /** `sep.join(parts)`. */
  function Join(sep: string, parts: seq<string>): (r: string)
    ensures |parts| == 0 ==> r == ""
    ensures |parts| == 1 ==> r == parts[0]
    ensures |parts| > 1 ==> parts[0] + sep <= r
    ensures |parts| > 0 ==> parts[0] <= r
  {
    if |parts| == 0 then ""
    else if |parts| == 1 then parts[0]
    else parts[0] + sep + Join(sep, parts[1..])
  }

  /** Joining two non-empty runs puts exactly one separator between them. */
  lemma {:induction false} JoinAppend(sep: string, a: seq<string>, b: seq<string>)
    requires |a| > 0 && |b| > 0
    ensures Join(sep, a + b) == Join(sep, a) + sep + Join(sep, b)
  {
    if |a| == 1 {
      assert (a + b)[1..] == b;
    } else {
      assert (a + b)[1..] == a[1..] + b;
      JoinAppend(sep, a[1..], b);
    }
  }

  /** The joined text is as long as all the parts and separators together. */
  lemma {:induction false} JoinLength(sep: string, parts: seq<string>)
    ensures |parts| > 0 ==> |Join(sep, parts)| == SumLengths(parts) + (|parts| - 1) * |sep|
  {
    if |parts| > 1 {
      JoinLength(sep, parts[1..]);
    }
  }

  function SumLengths(parts: seq<string>): nat
  {
    if |parts| == 0 then 0 else |parts[0]| + SumLengths(parts[1..])
  }

  /** `s[:n]`. */
  function Take(s: string, n: nat): (r: string)
    ensures |r| == if n < |s| then n else |s|
    ensures r <= s
  {
    if n < |s| then s[..n] else s
  }
}
