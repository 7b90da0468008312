# Movie lookup page: a Dafny model of its client logic

The page (`script.js`) lets a visitor type a title or paste a catalogue movie
address into a search field. A plain query is sent to a search proxy. An
address of the form `https://www.themoviedb.org/movie/<id>...` plays that movie
in an embedded player. The page also reads a `?movie=<id>` parameter when it
loads. This project models the decisions the client makes and the view state
it keeps:

- `MovieId` (`movie_id.dfy`): `extractMovieIdFromUrl`. The one regular
  expression `/\/movie\/(\d+)/` is written out directly, with no regex engine:
  take the leftmost `/movie/` that a digit follows, then capture the greedy run
  of ASCII digits after it. A reference meaning (`CapturesAt`, `Leftmost`) is
  stated separately, and the function is proved equal to it in both directions.
- `Query` (`query.dfy`): `String.prototype.trim`, using the ECMAScript
  whitespace and line-terminator set. It also has the pure classifier
  `Dispatch`, which returns `NoOp | Play(id) | InvalidUrl | Search(query)` for
  the search button handler, with one if-and-only-if lemma per route.
- `ReleaseYear` (`release_year.dfy`): the release year shown for each result,
  `release_date ? release_date.split('-')[0] : 'Unknown'`. `split` with a
  one-character separator is modelled in full and proved to round-trip with
  `join`.
- `Player` (`player.dfy`): class `MoviePage`, holding the page's mutable state.
  That state is the inline styles the handlers write (kept in a `View` record),
  `currentMovieId`, and the effects that leave the page: pushed history
  addresses, alerts and started searches. Its methods are page load,
  `playMovie`, the overlay click, the search click and the Enter key. `Valid`
  ties the view to the current movie. `EffectsValid` says every alert the search-button handler
  raises is the invalid-URL message, and every search is a trimmed, non-empty query that is
  not a catalogue address.

Browser values are parameters: `window.innerWidth` is an argument of each
handler, `window.location.origin` and `.pathname` are constants of the page,
and `URLSearchParams.get('movie')` is an `Option<string>` given to the
constructor. `null`/`undefined` are `None`. A string is truthy when it is not
empty.

Behaviour that follows from the code as written and is proved here:

- A catalogue address is never searched. It gives `InvalidUrl` only when no
  `/movie/` anywhere in it is followed by a digit.
- The id comes from the leftmost `/movie/<digit>` in the address.
  `https://www.themoviedb.org/movie/550-fight-club` plays `550`.
- A blank query still hides the player and shows the results. Those two
  assignments come before the emptiness test.
- A date that starts with `-` shows as the empty year, not `"Unknown"`.

## Model

| member | source | states |
|---|---|---|
| `MovieId.DigitRun` | script.js:43 | `(\d+)`, greedy: the result is a prefix of the text, is made only of digits, and stops at the end or at a non-digit |
| `MovieId.FindMatch` | script.js:43 | the match position the regex engine reaches first: `/movie/` plus a digit starts there, and no match starts between `from` and it; `None` only when no match starts at or after `from` |
| `MovieId.MatchCaptures` | script.js:43 | where `/movie/` plus a digit starts, the greedy digit run after it is a capture: `/movie/` + run occurs there, and the run is non-empty, all digits and maximal |
| `MovieId.CaptureUnique` | script.js:43 | at a given position there is only one greedy capture |
| `MovieId.ExtractMovieId` | script.js:42-45 | a non-null result is a non-empty string of decimal digits |
| `MovieId.ExtractMovieIdNone` | script.js:43-44 | the result is `null` exactly when no `/movie/` in the URL is followed by a digit |
| `MovieId.ExtractMovieIdIff` | script.js:43-44 | the result is `d` exactly when the leftmost match captures `d`; so `"/movie/" + d` occurs in the URL and the next character is the end or a non-digit |
| `Query.IsWhitespace` | script.js:19 | the characters `trim` removes, the constant `Whitespace` (ECMAScript WhiteSpace and LineTerminator); among ASCII characters, exactly the space and tab through carriage return |
| `Query.SkipLeading` | script.js:19 | `trim`'s left end: everything skipped is whitespace, and it stops at the end or at a non-whitespace character |
| `Query.SkipTrailing` | script.js:19 | `trim`'s right end: everything dropped is whitespace, and it stops at the left end or after a non-whitespace character |
| `Query.Trim` | script.js:19 | the trimmed query neither starts nor ends with whitespace |
| `Query.TrimSlice` | script.js:19 | the trimmed query is a slice `s[a..b]` of the input, and everything outside the slice is whitespace |
| `Query.TrimEmpty` | script.js:19-22 | the trimmed query is empty exactly when the input is all whitespace |
| `Query.TrimIdempotent` | script.js:19 | trimming twice is trimming once |
| `Query.Dispatch` | script.js:18-34 | a search is only started for a non-empty query, with no whitespace at either end, that does not start with the catalogue prefix |
| `Query.DispatchNoOp` | script.js:22 | nothing is played or searched exactly when the field holds only whitespace |
| `Query.DispatchTmdbUrl` | script.js:23-32 | the handler plays or alerts, and never searches, exactly when the trimmed query starts with `https://www.themoviedb.org/movie/` |
| `Query.DispatchPlay` | script.js:23-26 | `Play(id)` exactly when the query has the prefix and `id` is the capture of the leftmost `/movie/(\d+)` match |
| `Query.DispatchInvalidUrl` | script.js:23-29 | the invalid-URL alert exactly when the query has the prefix and no `/movie/` in it is followed by a digit |
| `Query.DispatchSearch` | script.js:30-31 | `Search(q)` exactly when `q` is the trimmed input, is non-empty and lacks the prefix |
| `Query.NoMatchInsidePrefix` | script.js:23-24 | inside the catalogue prefix, the pattern cannot match before the prefix's own `/movie/` (index 26, `PrefixSegmentAt`) |
| `Query.ExtractFromTmdbUrl` | script.js:23-26 | prefix + digits `d` + a rest that does not start with a digit has id `d` |
| `Query.PlayTmdbUrl` | script.js:19-26 | such an address in the field, with blanks around it allowed, gives `Play(d)` |
| `ReleaseYear.Split` | script.js:68 | `split('-')` returns at least one piece, and no piece contains the separator |
| `ReleaseYear.JoinSplit` | script.js:68 | joining the pieces of a split with the separator gives back the date |
| `ReleaseYear.SplitJoin` | script.js:68 | splitting a join of separator-free pieces gives back the pieces |
| `ReleaseYear.SplitPiece` | script.js:68 | a separator-free text followed by the separator splits into that text and the pieces of the rest |
| `ReleaseYear.FirstPiece` | script.js:68 | `split(...)[0]` is the longest prefix free of the separator: the end or a separator follows it |
| `ReleaseYear.Year` | script.js:68 | `"Unknown"` for a missing or empty date; otherwise the part of the date before the first `-`, or the whole date when it has no `-` |
| `ReleaseYear.YearOfDate` | script.js:68 | a dash-free `year` followed by `-` and anything gives `year` (so `"-"` gives `""`), and a non-empty date without `-` gives itself |
| `Player.ContainerSize.MaxWidth` | script.js:91-97 | `playerContainer.style.maxWidth` is left to the stylesheet (`""`) exactly until a size is chosen; the values `1200px` (desktop) and `95vw` (mobile) are fixed by its definition and stated in `PlayMovie`'s contract |
| `Player.ContainerSize.Height` | script.js:91-97 | `playerContainer.style.height` is `""` exactly until a size is chosen; the values `675px` (desktop) and `240px` (mobile) are fixed by its definition and stated in `PlayMovie`'s contract |
| `Player.EmbedUrl` | script.js:82-83 | the frame source starts with `https://www.vidking.net/embed/movie/` and the id is what follows it, so the address determines the id |
| `Player.HistoryUrl` | script.js:101-102 | the pushed address starts with origin + pathname + `?movie=` and the id is what follows it, so on one page the address determines the id |
| `Player.MoviePage.NewestEntryNamesMovie` | script.js:101-102 | under `Valid`, the newest pushed address names `currentMovieId` |
| `Player.MoviePage.FrameNamesMovie` | script.js:81-83 | under `Valid`, once a movie is chosen the frame source names `currentMovieId` |
| `Player.MoviePage.constructor` | script.js:10-16 | page load: no inline style is set; a non-empty `movie` parameter is played at once, pushing one address |
| `Player.MoviePage.PlayMovie` | script.js:80-103 | `currentMovieId = id`; frame source `https://www.vidking.net/embed/movie/` + id; results hidden; player, title and container shown; overlay `flex`; container size `Desktop` (max-width 1200px, height 675px) at width ≥ 1024, else `Mobile` (95vw, 240px), the CSS strings through `MaxWidth`/`Height`; frame 100%/100%; origin + pathname + `?movie=` + id pushed; alerts and searches untouched; `Valid` kept |
| `Player.MoviePage.ClickOverlay` | script.js:105-107 | the overlay is hidden and nothing else changes |
| `Player.MoviePage.ClickSearch` | script.js:18-34 | player hidden and results shown, then the route `Dispatch` picks: play (as `PlayMovie`), one invalid-URL alert, one search of the trimmed query, or nothing; both invariants kept |
| `Player.MoviePage.Perform` | script.js:22-33 | the branches after classification, with the same effects as `ClickSearch` |
| `Player.MoviePage.PressKey` | script.js:36-40 | Enter acts exactly as a search click; any other key changes nothing |

## Left out

- `netlify/functions/search-movies.js` is not part of this model. It only reads an environment variable, calls the catalogue API over the network and re-wraps the JSON.
- `searchMovies` (script.js:47-56) is network I/O: `fetch`, `response.json()`, and alerts on failure. The model records the query handed to it in `searches`. The request address with `encodeURIComponent` is not modelled.
- `displayMovies` (script.js:58-78) builds DOM: `innerHTML` templates, the poster fallback and listener wiring. Only the release-year expression (line 68) is modelled. A click on a result card (lines 73-75) is `PlayMovie` with the movie's id as text.
- The model does not re-render search results; it has no asynchronous completion of a search.
- `history.pushState` is modelled as appending the address to `history`. The state object `{movieId}` it also stores is not.
- `alert` is modelled as appending the message to `alerts`. Its blocking dialog is not.
- The failure alert of `searchMovies` (script.js:54) is not recorded in `alerts`, which holds only the messages the search-button handler raises. If it were recorded, the first clause of `EffectsValid` (every alert is the invalid-URL message) would no longer hold.
- `URLSearchParams.get('movie')` is a constructor argument. Percent-decoding and parameter parsing are not modelled.
- `window.innerWidth`, `window.location.origin` and `window.location.pathname` are inputs.
- Initial inline styles are unknown, because the HTML page is not part of this model. They are modelled as unset (`""`, `Display.Unset`), and the frame source as `""`.
- Dafny strings are sequences of Unicode scalar values, while JavaScript strings are UTF-16 code units. The whitespace set, the digits and the literals the code compares against are all single code units, so the results are the same; positions inside strings holding astral characters are not.
- `Query.Whitespace` follows the ECMAScript WhiteSpace and LineTerminator sets, using today's Unicode `Zs` category; later Unicode versions could add characters to that category.
- `ReleaseYear.Year`: a `release_date` that is not a string (a number, say) is not modelled. The date is `None` when missing or `null`, and otherwise a string.
- `currentMovieId` is written by `playMovie` but not read anywhere in script.js. The model keeps it and ties it to the frame source and the newest history address.
