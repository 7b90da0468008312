/**
  The page's view state (script.js): which sections are shown, the player's
  size and source, the current movie id, and the effects the page has on the
  browser (history entries pushed, alerts raised, searches started).
  Browser values the code reads (`window.innerWidth`, `window.location`, the
  `movie` query parameter) are parameters.
 */
module Player {
  import opened Wrappers
  import Query

  /** An element's inline `style.display`: `""` (left to the stylesheet), `"none"`, `"block"` or `"flex"`. */
  datatype Display = Unset | Hidden | Block | Flex

  /**
    The size `playMovie` gives the player container: unset before any movie,
    then the desktop or the mobile size. Its CSS values are derived from it.
   */
  datatype ContainerSize = Unsized | Desktop | Mobile {
    /** `playerContainer.style.maxWidth`: left to the stylesheet exactly until a size is chosen. */
    function MaxWidth(): (w: string)
      ensures w == "" <==> this == Unsized
    {
      match this
      case Unsized => ""
      case Desktop => "1200px"
      case Mobile => "95vw"
    }

    /** `playerContainer.style.height`: left to the stylesheet exactly until a size is chosen. */
    function Height(): (h: string)
      ensures h == "" <==> this == Unsized
    {
      match this
      case Unsized => ""
      case Desktop => "675px"
      case Mobile => "240px"
    }
  }

  /**
    The inline styles and frame source the page's handlers write: the display
    of the results section, the player section, the player title, the player
    container and the overlay; the container's size; the player frame's `src`
    and its `style.width` / `style.height`.
   */
  datatype View = View(
    results: Display,
    player: Display,
    title: Display,
    container: Display,
    overlay: Display,
    containerSize: ContainerSize,
    frameSrc: string,
    frameWidth: string,
    frameHeight: string)

  /** The page as loaded: no inline style set, no frame source. */
  const InitialView: View := View(Unset, Unset, Unset, Unset, Unset, Unsized, "", "", "")

  /** What `playMovie` gives the frame's width and height: fill the container. */
  const FillContainer: string := "100%"

  /** Where the embedded player is loaded from. */
  const EmbedBase: string := "https://www.vidking.net/embed/movie/"

  /** The alert raised for a catalogue URL without a movie id. */
  const InvalidUrlMessage: string := "Invalid TMDB URL format."

  /** Viewport width (in CSS pixels) from which the player gets its desktop size. */
  const DesktopWidth: int := 1024

  /** The address `playMovie` loads into the player frame: the embed base, then the id, which can be read back. */
  function EmbedUrl(id: string): (r: string)
    ensures EmbedBase <= r && r[|EmbedBase|..] == id
  {
    EmbedBase + id
  }

  /** The address `playMovie` pushes onto the browser history; the id can be read back from its end. */
  function HistoryUrl(origin: string, pathname: string, id: string): (r: string)
    ensures origin + pathname + "?movie=" <= r
    ensures r[|origin + pathname + "?movie="|..] == id
  {
    origin + pathname + "?movie=" + id
  }

  /** A query the search route can hand on: trimmed, non-empty, not a catalogue movie URL. */
  ghost predicate IsSearchQuery(q: string) {
    q != [] && !Query.IsWhitespace(q[0]) && !Query.IsWhitespace(q[|q| - 1])
    && !(Query.TmdbMoviePrefix <= q)
  }

  class MoviePage {
    /** `window.location.origin` and `.pathname`; `pushState` here changes only the query part. */
    const origin: string
    const pathname: string

    var currentMovieId: Option<string>
    var view: View
    /** Addresses pushed with `history.pushState`, oldest first. */
    var history: seq<string>
    /** Messages raised with `alert` by the search-button handler, oldest first. */
    var alerts: seq<string>
    /** Queries handed to `searchMovies`, oldest first. */
    var searches: seq<string>

    /**
      Before any movie is chosen nothing of the player is shown and no address
      was pushed; once one is chosen, the frame plays it, the newest history
      entry names it, and the container is shown with one of the two sizes.
     */
    ghost predicate Valid()
      reads this
    {
      && (currentMovieId.None? ==>
            && history == [] && view.results != Hidden && view.player != Block
            && view.title == Unset && view.container == Unset && view.containerSize == Unsized)
      && (currentMovieId.Some? ==>
            && view.frameSrc == EmbedUrl(currentMovieId.value)
            && history != [] && history[|history| - 1] == HistoryUrl(origin, pathname, currentMovieId.value)
            && view.title == Block && view.container == Block && view.containerSize != Unsized
            && view.frameWidth == FillContainer && view.frameHeight == FillContainer)
    }

    /**
      Every alert is the invalid-URL message and every search a query the search
      route hands on. Kept apart from `Valid` because only the search button adds to these.
     */
    ghost predicate EffectsValid()
      reads this`alerts, this`searches
    {
      && (forall k :: 0 <= k < |alerts| ==> alerts[k] == InvalidUrlMessage)
      && (forall k :: 0 <= k < |searches| ==> IsSearchQuery(searches[k]))
    }

    /** Under `Valid`, the newest pushed address names the movie being played. */
    lemma NewestEntryNamesMovie(id: string)
      requires Valid() && history != []
      requires history[|history| - 1] == HistoryUrl(origin, pathname, id)
      ensures currentMovieId == Some(id)
    {
    }

    /** Under `Valid`, once a movie is chosen the player frame's source names it. */
    lemma FrameNamesMovie(id: string)
      requires Valid() && currentMovieId.Some? && view.frameSrc == EmbedUrl(id)
      ensures currentMovieId == Some(id)
    {
    }

    /** The view right after `playMovie(id)` with a viewport `innerWidth` pixels wide. */
    ghost predicate Showing(id: string, innerWidth: int)
      reads this
    {
      && currentMovieId == Some(id)
      && view == View(
           results := Hidden, player := Block, title := Block, container := Block, overlay := Flex,
           containerSize := if innerWidth >= DesktopWidth then Desktop else Mobile,
           frameSrc := EmbedUrl(id), frameWidth := FillContainer, frameHeight := FillContainer)
    }

    /**
      Page load: no inline style is set, and when the address carries a
      non-empty `movie` parameter (`movieParam`, the result of
      `URLSearchParams.get('movie')`) that movie is played at once.
     */
    constructor (origin: string, pathname: string, movieParam: Option<string>, innerWidth: int)
      ensures Valid() && EffectsValid()
      ensures this.origin == origin && this.pathname == pathname
      ensures alerts == [] && searches == []
      ensures movieParam.Some? && movieParam.value != [] ==>
                Showing(movieParam.value, innerWidth)
                && history == [HistoryUrl(origin, pathname, movieParam.value)]
      ensures movieParam.None? || movieParam.value == [] ==>
                currentMovieId == None && view == InitialView && history == []
    {
      this.origin := origin;
      this.pathname := pathname;
      currentMovieId := None;
      view := InitialView;
      history, alerts, searches := [], [], [];
      new;
      if movieParam.Some? && movieParam.value != [] {
        PlayMovie(movieParam.value, innerWidth);
      }
    }

    /**
      `playMovie(id)`: remembers the id, loads the player, hides the results,
      shows the player with its overlay, sizes the container for the viewport
      and pushes the movie's address. Alerts and searches are not touched.
     */
    method PlayMovie(id: string, innerWidth: int)
      requires Valid()
      modifies this
      ensures Valid()
      ensures Showing(id, innerWidth)
      ensures view.containerSize.MaxWidth() == (if innerWidth >= DesktopWidth then "1200px" else "95vw")
      ensures view.containerSize.Height() == (if innerWidth >= DesktopWidth then "675px" else "240px")
      ensures history == old(history) + [HistoryUrl(origin, pathname, id)]
      ensures alerts == old(alerts) && searches == old(searches)
    {
      currentMovieId := Some(id);
      view := view.(frameSrc := EmbedUrl(id), results := Hidden, player := Block, title := Block,
                    container := Block, overlay := Flex);
      if innerWidth >= DesktopWidth {
        view := view.(containerSize := Desktop);
      } else {
        view := view.(containerSize := Mobile);
      }
      view := view.(frameWidth := FillContainer, frameHeight := FillContainer);
      history := history + [HistoryUrl(origin, pathname, id)];
    }

    /** A click on the overlay hides the overlay and nothing else. */
    method ClickOverlay()
      requires Valid()
      modifies this`view
      ensures Valid()
      ensures view == old(view).(overlay := Hidden)
    {
      view := view.(overlay := Hidden);
    }

    /**
      The effect of one click on the search button when the field's text
      routes to `action` (see `Query.Dispatch`): the player section is hidden
      and the results shown first, whatever the input; then the action plays a
      movie, raises the invalid-URL alert, starts a search, or does nothing more.
     */
    twostate predicate Routed(action: Query.Action, innerWidth: int)
      reads this
    {
      && (action.Play? ==>
            && Showing(action.id, innerWidth)
            && history == old(history) + [HistoryUrl(origin, pathname, action.id)])
      && (!action.Play? ==>
            && view == old(view).(results := Block, player := Hidden)
            && currentMovieId == old(currentMovieId) && history == old(history))
      && alerts == old(alerts) + (if action.InvalidUrl? then [InvalidUrlMessage] else [])
      && searches == old(searches) + (if action.Search? then [action.query] else [])
    }

    /** The search button's click handler. */
    method ClickSearch(input: string, innerWidth: int)
      requires Valid() && EffectsValid()
      modifies this
      ensures Valid() && EffectsValid()
      ensures Routed(Query.Dispatch(input), innerWidth)
    {
      var action := Query.Dispatch(input);
      assert action.Search? ==> IsSearchQuery(action.query);
      view := view.(player := Hidden, results := Block);
      Perform(action, innerWidth);
    }

    /** The branches of the click handler after the query is classified. */
    method Perform(action: Query.Action, innerWidth: int)
      requires Valid() && EffectsValid()
      requires view.results == Block && view.player == Hidden
      requires action.Search? ==> IsSearchQuery(action.query)
      modifies this
      ensures Valid() && EffectsValid()
      ensures Routed(action, innerWidth)
    {
      match action
      case NoOp =>
      case Play(id) =>
        PlayMovie(id, innerWidth);
      case InvalidUrl =>
        alerts := alerts + [InvalidUrlMessage];
      case Search(query) =>
        searches := searches + [query];
    }

    /** A key press in the search field: Enter clicks the search button, other keys do nothing. */
    method PressKey(key: string, input: string, innerWidth: int)
      requires Valid() && EffectsValid()
      modifies this
      ensures Valid() && EffectsValid()
      ensures key == "Enter" ==> Routed(Query.Dispatch(input), innerWidth)
      ensures key != "Enter" ==> unchanged(this)
    {
      if key == "Enter" {
        ClickSearch(input, innerWidth);
      }
    }
  }
}
