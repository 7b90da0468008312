/**
  The release year shown for each search result (`displayMovies` in script.js):
  `movie.release_date ? movie.release_date.split('-')[0] : 'Unknown'`.
 */
module ReleaseYear {
  import opened Wrappers

  /**
    `s.split(sep)` for a one-character separator: the pieces between the
    occurrences of `sep`, so there is always one piece more than separators
    (`"".split('-')` is `[""]`, `"a--b".split('-')` is `["a", "", "b"]`).
   */
  function Split(s: string, sep: char): (parts: seq<string>)
    ensures |parts| >= 1
    ensures forall k :: 0 <= k < |parts| ==> sep !in parts[k]
  {
    if s == [] then [[]]
    else if s[0] == sep then [[]] + Split(s[1..], sep)
    else
      var rest := Split(s[1..], sep);
      [[s[0]] + rest[0]] + rest[1..]
  }

  /** `parts.join(sep)`: the pieces glued together with `sep` between neighbours. */
  function Join(parts: seq<string>, sep: char): (r: string)
    requires |parts| >= 1
  {
    if |parts| == 1 then parts[0] else parts[0] + [sep] + Join(parts[1..], sep)
  }

  /** Splitting loses nothing: joining the pieces again gives back the string. */
  lemma {:induction false} JoinSplit(s: string, sep: char)
    ensures Join(Split(s, sep), sep) == s
  {
    if s == [] {
    } else if s[0] == sep {
      JoinSplit(s[1..], sep);
      assert Split(s, sep)[1..] == Split(s[1..], sep);
    } else {
      JoinSplit(s[1..], sep);
      var rest := Split(s[1..], sep);
      if |rest| == 1 {
        assert Split(s, sep) == [[s[0]] + rest[0]];
      } else {
        assert Split(s, sep)[1..] == rest[1..];
        assert Join(rest, sep) == rest[0] + [sep] + Join(rest[1..], sep);
      }
    }
  }

  /** Pieces free of the separator come back unchanged from a join and a split. */
  lemma {:induction false} SplitJoin(parts: seq<string>, sep: char)
    requires |parts| >= 1
    requires forall k :: 0 <= k < |parts| ==> sep !in parts[k]
    ensures Split(Join(parts, sep), sep) == parts
  {
    if |parts| == 1 {
      SplitPiece(parts[0], [], sep);
    } else {
      SplitJoin(parts[1..], sep);
      SplitPiece(parts[0], Join(parts[1..], sep), sep);
      assert [parts[0]] + parts[1..] == parts;
    }
  }

  /** A separator-free `p` followed by `sep` and `t` splits into `p` and the pieces of `t`. */
  lemma {:induction false} SplitPiece(p: string, t: string, sep: char)
    requires sep !in p
    ensures t == [] ==> Split(p, sep) == [p]
    ensures Split(p + [sep] + t, sep) == [p] + Split(t, sep)
  {
    if p == [] {
      assert [sep] + t == p + [sep] + t;
      assert ([sep] + t)[1..] == t;
    } else {
      SplitPiece(p[1..], t, sep);
      assert (p + [sep] + t)[1..] == p[1..] + [sep] + t;
      assert [p[0]] + p[1..] == p;
      if t == [] {
        assert Split(p, sep) == [[p[0]] + Split(p[1..], sep)[0]] + Split(p[1..], sep)[1..];
      }
    }
  }

  /** What the page shows when a result has no release date. */
  const Unknown: string := "Unknown"

  /**
    The year shown for a result whose `release_date` is `date` (`None` for a
    missing or `null` date): `"Unknown"` for a missing or empty date, otherwise
    the text before the first `-`, which is the whole date when it has none.
   */
  function Year(date: Option<string>): (y: string)
    ensures date.None? || date.value == [] ==> y == Unknown
    ensures date.Some? && date.value != [] ==>
              && y <= date.value
              && '-' !in y
              && (y == date.value || date.value[|y|] == '-')
  {
    if date.None? || date.value == [] then Unknown
    else
      var parts := Split(date.value, '-');
      FirstPiece(date.value, '-');
      parts[0]
  }

  /** The first piece of a split is the longest prefix free of the separator. */
  lemma {:induction false} FirstPiece(s: string, sep: char)
    ensures Split(s, sep)[0] <= s
    ensures |Split(s, sep)[0]| == |s| || s[|Split(s, sep)[0]|] == sep
  {
    if s != [] && s[0] != sep {
      FirstPiece(s[1..], sep);
    }
  }

  /** A catalogue date `YYYY-MM-DD` shows as `YYYY`; a date with no dash shows whole. */
  lemma YearOfDate(year: string, rest: string)
    requires '-' !in year
    ensures Year(Some(year + "-" + rest)) == year
    ensures year != [] ==> Year(Some(year)) == year
  {
    var s := year + "-" + rest;
    assert s[|year|] == '-';
    var y := Year(Some(s));
    assert y == s[..|y|];
  }
}
