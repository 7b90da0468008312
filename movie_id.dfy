/**
  Movie-id extraction from a catalogue URL (`extractMovieIdFromUrl` in script.js).

  The page applies the regular expression `/\/movie\/(\d+)/` and returns its
  first capture group, or `null` when there is no match. The regular
  expression is modelled directly: the engine tries start positions from left
  to right, and at the first position where `/movie/` is followed by a digit it
  captures the greedy (maximal) run of digits.
 */
module MovieId {
  import opened Wrappers

  /** `\d` in a JavaScript regular expression: an ASCII digit. */
  predicate IsDigit(c: char) {
    '0' <= c <= '9'
  }

  predicate AllDigits(s: string) {
    forall k :: 0 <= k < |s| ==> IsDigit(s[k])
  }

  /** The literal part of the pattern. */
  const Segment: string := "/movie/"

  /** The pattern can start matching at index `i`: `/movie/` followed by at least one digit. */
  predicate MatchesAt(url: string, i: nat) {
    i + |Segment| < |url| && url[i..i + |Segment|] == Segment && IsDigit(url[i + |Segment|])
  }

  /** No match of the pattern starts before index `i`. */
  ghost predicate Leftmost(url: string, i: nat) {
    forall j :: 0 <= j < i ==> !MatchesAt(url, j)
  }

  /**
    Reference meaning of "the pattern matches at `i` and captures `d`": the text
    `/movie/` + `d` occurs at `i`, `d` is a non-empty run of digits, and the run
    cannot be extended (the next character is the end of the URL or a non-digit).
   */
  ghost predicate CapturesAt(url: string, i: nat, d: string) {
    var end := i + |Segment| + |d|;
    && d != []
    && AllDigits(d)
    && end <= |url|
    && url[i..end] == Segment + d
    && (end == |url| || !IsDigit(url[end]))
  }

  /** The greedy `(\d+)` group: the longest prefix of `s` made of digits. */
  function DigitRun(s: string): (r: string)
    ensures |r| <= |s| && r == s[..|r|]
    ensures AllDigits(r)
    ensures |r| == |s| || !IsDigit(s[|r|])
  {
    if s != [] && IsDigit(s[0]) then [s[0]] + DigitRun(s[1..]) else []
  }

  /** The leftmost index at or after `from` where the pattern matches. */
  function FindMatch(url: string, from: nat): (r: Option<nat>)
    ensures r.Some? ==> from <= r.value && MatchesAt(url, r.value)
    ensures forall j :: from <= j && (r.None? || j < r.value) ==> !MatchesAt(url, j)
    decreases |url| - from
  {
    if from + |Segment| >= |url| then None
    else if MatchesAt(url, from) then Some(from)
    else FindMatch(url, from + 1)
  }

  /** `url.match(/\/movie\/(\d+)/)`, then `match[1]`, or `null` when there is no match. */
  function ExtractMovieId(url: string): (r: Option<string>)
    ensures r.Some? ==> r.value != [] && AllDigits(r.value)
  {
    match FindMatch(url, 0)
    case None => None
    case Some(i) => Some(DigitRun(url[i + |Segment|..]))
  }

  /** There is no id exactly when no `/movie/` in the URL is followed by a digit. */
  lemma ExtractMovieIdNone(url: string)
    ensures ExtractMovieId(url).None? <==> forall i :: 0 <= i ==> !MatchesAt(url, i)
  {
  }

  /** Where the pattern matches, the greedy digit run after `/movie/` is its capture. */
  lemma MatchCaptures(url: string, i: nat)
    requires MatchesAt(url, i)
    ensures CapturesAt(url, i, DigitRun(url[i + |Segment|..]))
  {
  }

  /** A capture that starts at a given position is determined by the URL alone. */
  lemma {:induction false} CaptureUnique(url: string, i: nat, d: string, e: string)
    requires CapturesAt(url, i, d) && CapturesAt(url, i, e)
    ensures d == e
  {
    var start := i + |Segment|;
    forall k | 0 <= k < |d| && k < |e|
      ensures d[k] == url[start + k] == e[k]
    {
      assert url[i..start + |d|][|Segment| + k] == d[k];
      assert url[i..start + |e|][|Segment| + k] == e[k];
    }
  }

  /**
    The extraction agrees with the reference meaning of the pattern, in both
    directions: it returns `d` exactly when the leftmost match captures `d`.
   */
  lemma ExtractMovieIdIff(url: string, d: string)
    ensures ExtractMovieId(url) == Some(d) <==> exists i: nat :: Leftmost(url, i) && CapturesAt(url, i, d)
  {
    var found := FindMatch(url, 0);
    if found.Some? {
      MatchCaptures(url, found.value);
    }
    if i: nat :| Leftmost(url, i) && CapturesAt(url, i, d) {
      assert url[i..i + |Segment|] == url[i..i + |Segment| + |d|][..|Segment|];
      assert url[i + |Segment|] == url[i..i + |Segment| + |d|][|Segment|];
      assert MatchesAt(url, i);
      assert found == Some(i);
      MatchCaptures(url, i);
      CaptureUnique(url, i, d, DigitRun(url[i + |Segment|..]));
    }
  }
}
