/**
  The search-button handler of script.js: the input is trimmed with
  `String.prototype.trim`, then the handler does nothing (empty input), plays
  the id of a catalogue movie URL (or reports an invalid URL), or searches.
 */
module Query {
  import opened Wrappers
  import MovieId

  /**
    The characters `String.prototype.trim` removes: ECMAScript WhiteSpace
    (tab, vertical tab, form feed, zero-width no-break space and the Unicode
    space separators, category Zs) and LineTerminator (LF, CR, U+2028, U+2029).
   */
  const Whitespace: set<char> := {
    '\U{0009}', '\U{000B}', '\U{000C}', '\U{FEFF}',
    '\U{0020}', '\U{00A0}', '\U{1680}',
    '\U{2000}', '\U{2001}', '\U{2002}', '\U{2003}', '\U{2004}', '\U{2005}',
    '\U{2006}', '\U{2007}', '\U{2008}', '\U{2009}', '\U{200A}',
    '\U{202F}', '\U{205F}', '\U{3000}',
    '\U{000A}', '\U{000D}', '\U{2028}', '\U{2029}'
  }

  /** Among ASCII characters, `trim` removes exactly the space and tab through carriage return. */
  predicate IsWhitespace(c: char)
    ensures c < '\U{0080}' ==> (IsWhitespace(c) <==> c == ' ' || '\t' <= c <= '\r')
  {
    c in Whitespace
  }

  /** The index of the first character at or after `i` that is not whitespace, or `|s|`. */
  function SkipLeading(s: string, i: nat): (a: nat)
    requires i <= |s|
    ensures i <= a <= |s|
    ensures forall k :: i <= k < a ==> IsWhitespace(s[k])
    ensures a == |s| || !IsWhitespace(s[a])
    decreases |s| - i
  {
    if i == |s| || !IsWhitespace(s[i]) then i else SkipLeading(s, i + 1)
  }

  /** The end of `s[lo..j]` once its trailing whitespace is dropped. */
  function SkipTrailing(s: string, lo: nat, j: nat): (b: nat)
    requires lo <= j <= |s|
    ensures lo <= b <= j
    ensures forall k :: b <= k < j ==> IsWhitespace(s[k])
    ensures b == lo || !IsWhitespace(s[b - 1])
  {
    if j == lo || !IsWhitespace(s[j - 1]) then j else SkipTrailing(s, lo, j - 1)
  }

  /** `s.trim()`: neither starts nor ends with whitespace. */
  function Trim(s: string): (r: string)
    ensures r == [] || (!IsWhitespace(r[0]) && !IsWhitespace(r[|r| - 1]))
  {
    var a := SkipLeading(s, 0);
    s[a..SkipTrailing(s, a, |s|)]
  }

  /**
    What `trim` keeps is the slice `s[a..b]`, and all it drops at either end is whitespace.
   */
  lemma TrimSlice(s: string) returns (a: nat, b: nat)
    ensures a <= b <= |s| && Trim(s) == s[a..b]
    ensures forall k :: 0 <= k < a ==> IsWhitespace(s[k])
    ensures forall k :: b <= k < |s| ==> IsWhitespace(s[k])
  {
    a := SkipLeading(s, 0);
    b := SkipTrailing(s, a, |s|);
  }

  /** `trim` gives the empty string exactly for strings made only of whitespace. */
  lemma TrimEmpty(s: string)
    ensures Trim(s) == [] <==> forall k :: 0 <= k < |s| ==> IsWhitespace(s[k])
  {
  }

  /** Trimming an already trimmed string changes nothing. */
  lemma TrimIdempotent(s: string)
    ensures Trim(Trim(s)) == Trim(s)
  {
  }

  /** The prefix that marks a query as a catalogue movie URL. */
  const TmdbMoviePrefix: string := "https://www.themoviedb.org/movie/"

  /** What the search-button handler does with the field's value. */
  datatype Action =
    | NoOp                    // the trimmed query is empty
    | Play(id: string)        // `playMovie(movieId)` with the extracted id
    | InvalidUrl              // `alert('Invalid TMDB URL format.')`
    | Search(query: string)   // `searchMovies(query)` with the trimmed query

  /**
    The route the handler takes for the text `input` of the search field.
    A search is only ever started for a trimmed, non-empty query that is not a
    catalogue movie URL.
   */
  function Dispatch(input: string): (a: Action)
    ensures a.Search? ==> && a.query != []
                          && !IsWhitespace(a.query[0]) && !IsWhitespace(a.query[|a.query| - 1])
                          && !(TmdbMoviePrefix <= a.query)
  {
    var query := Trim(input);
    if query == [] then NoOp
    else if TmdbMoviePrefix <= query then
      match MovieId.ExtractMovieId(query)
      case Some(id) => Play(id)
      case None => InvalidUrl
    else Search(query)
  }

  /** Nothing is done exactly when the field holds only whitespace. */
  lemma DispatchNoOp(input: string)
    ensures Dispatch(input) == NoOp <==> forall k :: 0 <= k < |input| ==> IsWhitespace(input[k])
  {
  }

  /** A trimmed query that starts with the catalogue prefix is never searched: it plays or is rejected. */
  lemma DispatchTmdbUrl(input: string)
    ensures (Dispatch(input).Play? || Dispatch(input).InvalidUrl?) <==> TmdbMoviePrefix <= Trim(input)
  {
  }

  /**
    The id played is the capture of the leftmost match of `/movie/(\d+)` in
    the trimmed catalogue URL, and no other string is played.
   */
  lemma DispatchPlay(input: string, id: string)
    ensures Dispatch(input) == Play(id) <==>
              && TmdbMoviePrefix <= Trim(input)
              && exists i: nat :: MovieId.Leftmost(Trim(input), i) && MovieId.CapturesAt(Trim(input), i, id)
  {
    MovieId.ExtractMovieIdIff(Trim(input), id);
  }

  /** A catalogue URL is rejected exactly when no `/movie/` in it is followed by a digit. */
  lemma DispatchInvalidUrl(input: string)
    ensures Dispatch(input) == InvalidUrl <==>
              && TmdbMoviePrefix <= Trim(input)
              && forall i :: 0 <= i ==> !MovieId.MatchesAt(Trim(input), i)
  {
  }

  /** Everything else that is not blank is searched, as the trimmed text. */
  lemma DispatchSearch(input: string, query: string)
    ensures Dispatch(input) == Search(query) <==>
              && query == Trim(input) && query != []
              && !(TmdbMoviePrefix <= query)
  {
  }

  /** Where the prefix's own `/movie/` starts: the prefix ends with it. */
  const PrefixSegmentAt: nat := |TmdbMoviePrefix| - |MovieId.Segment|

  /** Inside the catalogue prefix the only `/movie/` is the one ending it. */
  lemma NoMatchInsidePrefix(q: string)
    requires TmdbMoviePrefix <= q
    ensures MovieId.Leftmost(q, PrefixSegmentAt)
  {
  }

  /**
    A catalogue URL whose path continues with the digits `d` and then anything
    that does not start with a digit (`/550-fight-club`, `?language=en`, nothing)
    has the id `d`.
   */
  lemma ExtractFromTmdbUrl(d: string, rest: string)
    requires d != [] && MovieId.AllDigits(d)
    requires rest == [] || !MovieId.IsDigit(rest[0])
    ensures MovieId.ExtractMovieId(TmdbMoviePrefix + d + rest) == Some(d)
  {
    var q := TmdbMoviePrefix + d + rest;
    assert TmdbMoviePrefix <= q;
    NoMatchInsidePrefix(q);
    var n := |TmdbMoviePrefix|;
    assert q[PrefixSegmentAt..n + |d|] == MovieId.Segment + d;
    if n + |d| < |q| {
      assert q[n + |d|] == rest[0];
    }
    assert MovieId.CapturesAt(q, PrefixSegmentAt, d);
    MovieId.ExtractMovieIdIff(q, d);
  }

  /** Such a URL in the search field (blanks around it allowed) plays `d`. */
  lemma PlayTmdbUrl(input: string, d: string, rest: string)
    requires Trim(input) == TmdbMoviePrefix + d + rest
    requires d != [] && MovieId.AllDigits(d)
    requires rest == [] || !MovieId.IsDigit(rest[0])
    ensures Dispatch(input) == Play(d)
  {
    ExtractFromTmdbUrl(d, rest);
    assert TmdbMoviePrefix <= Trim(input);
  }
}
