/**
 * The state of `MovieSearchApp` and its transitions, as functions on values: the debounced
 * input handler, the search with its two outcomes, the page guard, the return from a detail
 * view, and the detail lookup. The class in module App is proved to follow these.
 */
module Controller {
  import opened Wrappers
  import opened Text
  import opened Pagination
  import opened ErrorMessages
  import opened MovieCard

  /** A request sent to the movie service: a search page, or the details of one title. */
  datatype Request = SearchRequest(query: string, page: int) | DetailRequest(id: string)

  /** What the results area shows. */
  datatype View = Welcome | NoResults | Results(cards: seq<Card>) | Details(id: string)

  /** The decoded JSON of a search response. */
  datatype SearchBody = SearchBody(
    response: string, error: Option<string>, totalResults: nat, search: Option<seq<SearchItem>>)

  /** How a search request ends: the request or the JSON decoding rejects, or a response arrives. */
  datatype SearchOutcome = Rejected(reason: string) | Responded(status: nat, body: SearchBody)

  /** How a detail request ends. */
  datatype DetailOutcome = DetailRejected(reason: string) | DetailResponded(status: nat, response: string)

  /**
   * The controller's state: the pending debounced search (the trimmed query its timer will
   * search), the fields currentQuery, currentPage and totalResults, the loading spinner, the
   * error banner (its message when shown), the results area, the pagination bar, and the
   * requests sent so far.
   */
  datatype AppState = AppState(
    pending: Option<string>,
    currentQuery: string,
    currentPage: int,
    totalResults: nat,
    loading: bool,
    error: Option<string>,
    view: View,
    pager: Pager,
    requests: seq<Request>)

  /** The state after the constructor and `init`: default fields and the welcome view. */
  function Initial(): AppState {
    AppState(None, "", 1, 0, false, None, Welcome, Hidden, [])
  }

  /** `response.ok`: a status in the range 200 to 299. */
  predicate IsOk(status: nat) {
    200 <= status <= 299
  }

  /** The message of the error a search throws, or None when it succeeds: a search succeeds
      exactly when the response is ok and its `Response` field is not "False". */
  function SearchError(o: SearchOutcome): (e: Option<string>)
    ensures e.None? <==> o.Responded? && IsOk(o.status) && o.body.response != "False"
    ensures o.Rejected? ==> e == Some(o.reason)
    ensures o.Responded? && !IsOk(o.status) ==> e == Some(HttpErrorText(o.status))
    ensures o.Responded? && IsOk(o.status) && o.body.response == "False" ==>
      e == Some(if o.body.error.Some? && o.body.error.value != "" then o.body.error.value else SearchFailedText)
  {
    match o
    case Rejected(reason) => Some(reason)
    case Responded(status, body) =>
      if !IsOk(status) then Some(HttpErrorText(status))
      else if body.response == "False" then
        Some(if body.error.Some? && body.error.value != "" then body.error.value else SearchFailedText)
      else None
  }

  /** `displayResults(data.Search || [])`: the no-results view for an absent or empty list,
      otherwise one card per item. */
  function DisplayResults(search: Option<seq<SearchItem>>): (v: View)
    ensures v == NoResults <==> search.None? || search.value == []
    ensures v != NoResults ==> v == Results(CreateMovieCards(search.value))
  {
    var movies := if search.Some? then search.value else [];
    if |movies| == 0 then NoResults else Results(CreateMovieCards(movies))
  }

  /** `showWelcomeMessage`: the welcome view, and the pagination bar hidden. */
  function ShowWelcomeMessage(s: AppState): AppState {
    s.(view := Welcome, pager := Hidden)
  }

  /** `!query.trim()`. */
  predicate IsBlank(query: string) {
    Trim(query) == ""
  }

  /**
   * `handleSearch` exactly as the source has it. The pending search afterwards depends on the
   * new query alone: any earlier one is cancelled. Nothing is requested yet. A blank query
   * shows the welcome view but leaves the spinner as it was.
   */
  function HandleSearchAsWritten(s: AppState, query: string): (r: AppState)
    ensures r.pending == if IsBlank(query) then None else Some(Trim(query))
    ensures r.requests == s.requests && r.currentQuery == s.currentQuery
    ensures r.currentPage == s.currentPage && r.totalResults == s.totalResults
    ensures r.error.None?
    ensures IsBlank(query) ==> r.view == Welcome && r.pager == Hidden && r.loading == s.loading
    ensures !IsBlank(query) ==> r.loading && r.view == s.view && r.pager == s.pager
  {
    var cleared := s.(pending := None, error := None);
    if IsBlank(query) then ShowWelcomeMessage(cleared)
    else cleared.(loading := true, pending := Some(Trim(query)))
  }

  /**
   * `handleSearch` corrected: the spinner is also hidden on a blank query. The pending search afterwards
   * depends on the new query alone: any earlier one is cancelled. Nothing is requested yet.
   */
  function HandleSearch(s: AppState, query: string): (r: AppState)
    ensures r.pending == if IsBlank(query) then None else Some(Trim(query))
    ensures r.requests == s.requests && r.currentQuery == s.currentQuery
    ensures r.currentPage == s.currentPage && r.totalResults == s.totalResults
    ensures r.error.None?
    ensures IsBlank(query) ==> r.view == Welcome && r.pager == Hidden && !r.loading
    ensures !IsBlank(query) ==> r.loading && r.view == s.view && r.pager == s.pager
  {
    var r := HandleSearchAsWritten(s, query);
    if IsBlank(query) then r.(loading := false) else r
  }

  /**
   * `searchMovies(query, page)` with the request ending as `o`. The query and page are
   * committed before the request, so also when it fails; the total, the results and the
   * pagination bar change only on success; the spinner is off afterwards either way.
   */
  function SearchMovies(s: AppState, query: string, page: int, o: SearchOutcome): (r: AppState)
    ensures r.currentQuery == query && r.currentPage == page
    ensures r.requests == s.requests + [SearchRequest(query, page)]
    ensures !r.loading && r.pending == s.pending
    ensures SearchError(o).Some? ==>
      && r.totalResults == s.totalResults && r.view == s.view && r.pager == s.pager
      && r.error == Some(GetErrorMessage(SearchError(o).value))
    ensures SearchError(o).None? ==>
      && r.totalResults == o.body.totalResults && r.error == s.error
      && r.pager == UpdatePagination(page, o.body.totalResults)
      && r.view == DisplayResults(o.body.search)
  {
    var committed := s.(currentQuery := query, currentPage := page,
                        requests := s.requests + [SearchRequest(query, page)]);
    var settled :=
      match SearchError(o)
      case Some(message) => committed.(error := Some(GetErrorMessage(message)))
      case None =>
        committed.(totalResults := o.body.totalResults, view := DisplayResults(o.body.search),
                   pager := UpdatePagination(page, o.body.totalResults));
    settled.(loading := false)
  }

  /** The debounce timer firing: the pending query is searched, on page 1. */
  function FireTimer(s: AppState, o: SearchOutcome): (r: AppState)
    ensures r.pending.None?
    ensures r.requests == s.requests + if s.pending.Some? then [SearchRequest(s.pending.value, 1)] else []
    ensures s.pending.None? ==> r == s
    ensures s.pending.Some? ==> r == SearchMovies(s.(pending := None), s.pending.value, 1, o)
  {
    match s.pending
    case None => s
    case Some(query) => SearchMovies(s.(pending := None), query, 1, o)
  }

  /** `goToPage(page)`: a page outside 1..TotalPages changes nothing and sends nothing; any other
      page is searched with the current query. */
  function GoToPage(s: AppState, page: int, o: SearchOutcome): (r: AppState)
    ensures !PageInRange(page, s.totalResults) ==> r == s
    ensures PageInRange(page, s.totalResults) ==>
      && r.requests == s.requests + [SearchRequest(s.currentQuery, page)]
      && r.currentQuery == s.currentQuery && r.currentPage == page
      && r == SearchMovies(s, s.currentQuery, page, o)
  {
    if page < 1 then s
    else if page > TotalPages(s.totalResults) then s
    else SearchMovies(s, s.currentQuery, page, o)
  }

  /** `backToSearch`: the current query and page are searched again. */
  function BackToSearch(s: AppState, o: SearchOutcome): (r: AppState)
    ensures r.requests == s.requests + [SearchRequest(s.currentQuery, s.currentPage)]
    ensures r.currentQuery == s.currentQuery && r.currentPage == s.currentPage
    ensures r == SearchMovies(s, s.currentQuery, s.currentPage, o)
  {
    SearchMovies(s, s.currentQuery, s.currentPage, o)
  }

  /** A detail lookup succeeds when the response is ok and its `Response` field is not "False". */
  predicate DetailFound(d: DetailOutcome) {
    d.DetailResponded? && IsOk(d.status) && d.response != "False"
  }

  /** `searchMovieDetails(id)`: the details are shown, or on any failure the search is redone. */
  function SearchMovieDetails(s: AppState, id: string, d: DetailOutcome, o: SearchOutcome): (r: AppState)
    ensures !r.loading
    ensures DetailFound(d) ==> r.view == Details(id) && r.requests == s.requests + [DetailRequest(id)]
    ensures !DetailFound(d) ==>
      r.requests == s.requests + [DetailRequest(id), SearchRequest(s.currentQuery, s.currentPage)]
    ensures DetailFound(d) ==>
      r == s.(loading := false, view := Details(id), requests := s.requests + [DetailRequest(id)])
    ensures !DetailFound(d) ==>
      r == SearchMovies(s.(requests := s.requests + [DetailRequest(id)]), s.currentQuery, s.currentPage, o)
  {
    var waiting := s.(loading := true, requests := s.requests + [DetailRequest(id)]);
    var done := if DetailFound(d) then waiting.(view := Details(id)) else BackToSearch(waiting, o);
    done.(loading := false)
  }

  /**
   * `searchMovieDetails(id)` as the source has it. A found title is rendered, but
   * `showMovieDetails` then calls `addMovieDetailsStyles`, which the class does not define. The
   * resulting TypeError is caught, and the catch calls `backToSearch`. So every lookup ends by
   * searching again, and on a successful re-search the results replace the details.
   */
  function SearchMovieDetailsAsWritten(s: AppState, id: string, d: DetailOutcome, o: SearchOutcome): (r: AppState)
    ensures !r.loading
    ensures r.requests == s.requests + [DetailRequest(id), SearchRequest(s.currentQuery, s.currentPage)]
    ensures !DetailFound(d) ==> r == SearchMovieDetails(s, id, d, o)
    ensures DetailFound(d) && SearchError(o).None? ==> r.view == DisplayResults(o.body.search)
    ensures DetailFound(d) && SearchError(o).Some? ==> r.view == Details(id)
    ensures r == SearchMovies(s.(requests := s.requests + [DetailRequest(id)],
                                 view := if DetailFound(d) then Details(id) else s.view),
                              s.currentQuery, s.currentPage, o)
  {
    var waiting := s.(loading := true, requests := s.requests + [DetailRequest(id)]);
    var shown := if DetailFound(d) then waiting.(view := Details(id)) else waiting;
    BackToSearch(shown, o).(loading := false)
  }

  /** What the page can do to the controller: typing, the debounce timer, the two page
      buttons, a click on a card, and the back button of the detail view. */
  datatype Event =
    | Typed(text: string)
    | TimerFired(outcome: SearchOutcome)
    | PrevClicked(outcome: SearchOutcome)
    | NextClicked(outcome: SearchOutcome)
    | CardClicked(id: string, detail: DetailOutcome, outcome: SearchOutcome)
    | BackClicked(outcome: SearchOutcome)

  function Step(s: AppState, e: Event): AppState {
    match e
    case Typed(text) => HandleSearch(s, text)
    case TimerFired(o) => FireTimer(s, o)
    case PrevClicked(o) => GoToPage(s, s.currentPage - 1, o)
    case NextClicked(o) => GoToPage(s, s.currentPage + 1, o)
    case CardClicked(id, d, o) => SearchMovieDetails(s, id, d, o)
    case BackClicked(o) => BackToSearch(s, o)
  }

  function Run(s: AppState, events: seq<Event>): AppState
    decreases |events|
  {
    if events == [] then s else Run(Step(s, events[0]), events[1..])
  }

  /** The events as the source handles them: typing goes to the handler as written. */
  function StepAsWritten(s: AppState, e: Event): AppState {
    match e
    case Typed(text) => HandleSearchAsWritten(s, text)
    case CardClicked(id, d, o) => SearchMovieDetailsAsWritten(s, id, d, o)
    case _ => Step(s, e)
  }

  function RunAsWritten(s: AppState, events: seq<Event>): AppState
    decreases |events|
  {
    if events == [] then s else RunAsWritten(StepAsWritten(s, events[0]), events[1..])
  }

  /** Keystrokes typed before the timer fires. */
  function TypeAll(s: AppState, texts: seq<string>): AppState
    decreases |texts|
  {
    if texts == [] then s else HandleSearch(TypeAll(s, texts[..|texts| - 1]), texts[|texts| - 1])
  }

  /** Keystrokes typed before the timer fires, handled as written. */
  function TypeAllAsWritten(s: AppState, texts: seq<string>): AppState
    decreases |texts|
  {
    if texts == [] then s
    else HandleSearchAsWritten(TypeAllAsWritten(s, texts[..|texts| - 1]), texts[|texts| - 1])
  }

  /**
   * What holds between events of the source as written: the page is at least 1, a pending
   * search carries a trimmed, non-blank query, and a visible pagination bar shows the current
   * total, which is more than one page.
   */
  predicate CoreInv(s: AppState) {
    && s.currentPage >= 1
    && (s.pending.Some? ==> s.pending.value != "" && Trim(s.pending.value) == s.pending.value)
    && (s.pager.Shown? ==> s.pager.total == s.totalResults && s.totalResults > PageSize)
  }

  /** With the corrected handler, also: the spinner turns only while a search is pending. */
  predicate Inv(s: AppState) {
    CoreInv(s) && (s.loading ==> s.pending.Some?)
  }

  lemma InitialInv()
    ensures Inv(Initial())
  {
  }

  /** A search for a page of at least 1 keeps the invariant, whatever the spinner was before. */
  lemma SearchMoviesKeepsInv(s: AppState, query: string, page: int, o: SearchOutcome)
    requires page >= 1 && CoreInv(s)
    ensures Inv(SearchMovies(s, query, page, o))
  {
  }

  /** Typing, handled as written or with the corrected handler, keeps the core invariant. */
  lemma HandleSearchKeepsCoreInv(s: AppState, query: string)
    requires CoreInv(s)
    ensures CoreInv(HandleSearch(s, query)) && CoreInv(HandleSearchAsWritten(s, query))
  {
    TrimIdempotent(query);
  }

  /** A detail lookup, as written or corrected, ends with the spinner off and the invariant kept. */
  lemma SearchMovieDetailsKeepsInv(s: AppState, id: string, d: DetailOutcome, o: SearchOutcome)
    requires CoreInv(s)
    ensures Inv(SearchMovieDetails(s, id, d, o)) && Inv(SearchMovieDetailsAsWritten(s, id, d, o))
  {
    var waiting := s.(loading := true, requests := s.requests + [DetailRequest(id)]);
    if DetailFound(d) {
      SearchMoviesKeepsInv(waiting.(view := Details(id)), s.currentQuery, s.currentPage, o);
    } else {
      SearchMoviesKeepsInv(waiting, s.currentQuery, s.currentPage, o);
    }
  }

  /** The events that search (timer, previous, next, back) keep the core invariant. */
  lemma SearchEventKeepsCoreInv(s: AppState, e: Event)
    requires CoreInv(s) && !e.Typed? && !e.CardClicked?
    ensures CoreInv(Step(s, e))
  {
    match e
    case TimerFired(o) =>
      if s.pending.Some? {
        SearchMoviesKeepsInv(s.(pending := None), s.pending.value, 1, o);
      }
    case PrevClicked(o) =>
      if PageInRange(s.currentPage - 1, s.totalResults) {
        SearchMoviesKeepsInv(s, s.currentQuery, s.currentPage - 1, o);
      }
    case NextClicked(o) =>
      if PageInRange(s.currentPage + 1, s.totalResults) {
        SearchMoviesKeepsInv(s, s.currentQuery, s.currentPage + 1, o);
      }
    case BackClicked(o) =>
      SearchMoviesKeepsInv(s, s.currentQuery, s.currentPage, o);
  }

  /** Every event, handled as written or with the corrected handler, keeps the core invariant. */
  lemma StepKeepsCoreInv(s: AppState, e: Event)
    requires CoreInv(s)
    ensures CoreInv(Step(s, e)) && CoreInv(StepAsWritten(s, e))
  {
    match e
    case Typed(text) =>
      HandleSearchKeepsCoreInv(s, text);
    case CardClicked(id, d, o) =>
      SearchMovieDetailsKeepsInv(s, id, d, o);
    case _ =>
      assert StepAsWritten(s, e) == Step(s, e);
      SearchEventKeepsCoreInv(s, e);
  }

  /** With the corrected handler every event keeps the full invariant, spinner included. */
  lemma StepKeepsInv(s: AppState, e: Event)
    requires Inv(s)
    ensures Inv(Step(s, e))
  {
    StepKeepsCoreInv(s, e);
    match e
    case TimerFired(o) =>
      if s.pending.Some? {
        SearchMoviesKeepsInv(s.(pending := None), s.pending.value, 1, o);
      }
    case PrevClicked(o) =>
      if PageInRange(s.currentPage - 1, s.totalResults) {
        SearchMoviesKeepsInv(s, s.currentQuery, s.currentPage - 1, o);
      }
    case NextClicked(o) =>
      if PageInRange(s.currentPage + 1, s.totalResults) {
        SearchMoviesKeepsInv(s, s.currentQuery, s.currentPage + 1, o);
      }
    case _ =>
  }

  /** With the corrected handler, every sequence of events from a state satisfying the
      invariant keeps it. */
  lemma {:induction false} RunKeepsInv(s: AppState, events: seq<Event>)
    requires Inv(s)
    ensures Inv(Run(s, events))
    decreases |events|
  {
    if events != [] {
      StepKeepsInv(s, events[0]);
      RunKeepsInv(Step(s, events[0]), events[1..]);
    }
  }

  /** As written, every sequence of events from a state satisfying the core invariant keeps it. */
  lemma {:induction false} RunAsWrittenKeepsCoreInv(s: AppState, events: seq<Event>)
    requires CoreInv(s)
    ensures CoreInv(RunAsWritten(s, events))
    decreases |events|
  {
    if events != [] {
      StepKeepsCoreInv(s, events[0]);
      RunAsWrittenKeepsCoreInv(StepAsWritten(s, events[0]), events[1..]);
    }
  }

  /** The corrected handler: after a burst only the last keystroke's query is pending. */
  lemma {:induction false} TypeAllLeavesLastPending(s: AppState, texts: seq<string>)
    requires texts != []
    ensures var last := texts[|texts| - 1];
      && TypeAll(s, texts).pending == (if IsBlank(last) then None else Some(Trim(last)))
      && TypeAll(s, texts).requests == s.requests
    decreases |texts|
  {
    var front := texts[..|texts| - 1];
    if front != [] {
      TypeAllLeavesLastPending(s, front);
    }
  }

  /** The handler as written: after a burst only the last keystroke's query is pending. */
  lemma {:induction false} TypeAllAsWrittenLeavesLastPending(s: AppState, texts: seq<string>)
    requires texts != []
    ensures var last := texts[|texts| - 1];
      && TypeAllAsWritten(s, texts).pending == (if IsBlank(last) then None else Some(Trim(last)))
      && TypeAllAsWritten(s, texts).requests == s.requests
    decreases |texts|
  {
    var front := texts[..|texts| - 1];
    if front != [] {
      TypeAllAsWrittenLeavesLastPending(s, front);
    }
  }

  /** Debounce: after any burst of keystrokes, handled either way, only the last one's query is
      pending (none if it is blank), and nothing has been requested. */
  lemma TypingKeepsOnlyLastQuery(s: AppState, texts: seq<string>)
    requires texts != []
    ensures var last := texts[|texts| - 1];
      && TypeAll(s, texts).pending == (if IsBlank(last) then None else Some(Trim(last)))
      && TypeAll(s, texts).requests == s.requests
      && TypeAllAsWritten(s, texts).pending == (if IsBlank(last) then None else Some(Trim(last)))
      && TypeAllAsWritten(s, texts).requests == s.requests
  {
    TypeAllLeavesLastPending(s, texts);
    TypeAllAsWrittenLeavesLastPending(s, texts);
  }

  /** Debounce: a burst of keystrokes followed by the timer sends exactly one search, for the
      trimmed last query on page 1, or none when the last query is blank. */
  lemma BurstSendsOneSearch(s: AppState, texts: seq<string>, o: SearchOutcome)
    requires texts != []
    ensures var last := texts[|texts| - 1];
      && FireTimer(TypeAll(s, texts), o).requests ==
           s.requests + (if IsBlank(last) then [] else [SearchRequest(Trim(last), 1)])
      && FireTimer(TypeAllAsWritten(s, texts), o).requests ==
           s.requests + (if IsBlank(last) then [] else [SearchRequest(Trim(last), 1)])
  {
    TypingKeepsOnlyLastQuery(s, texts);
  }

  /** A search that fails by HTTP status, whatever the status, shows the generic message. */
  lemma HttpFailureShowsGenericMessage(s: AppState, query: string, page: int, status: nat, body: SearchBody)
    requires !IsOk(status)
    ensures SearchMovies(s, query, page, Responded(status, body)).error == Some(GenericMessage)
  {
    HttpErrorsGetGenericMessage(status);
  }

  /** A failed search whose message falls through to the generic branch shows the generic
      message. */
  lemma UnmatchedErrorShowsGenericMessage(s: AppState, query: string, page: int, o: SearchOutcome)
    requires SearchError(o).Some? && Classify(SearchError(o).value) == OtherError
    ensures SearchMovies(s, query, page, o).error == Some(GenericMessage)
  {
  }

  /** A refusal (`Response` "False") that carries no `Error` text shows the generic message. */
  lemma BareRefusalShowsGenericMessage(s: AppState, query: string, page: int, status: nat, body: SearchBody)
    requires IsOk(status) && body.response == "False" && (body.error.None? || body.error.value == "")
    ensures SearchMovies(s, query, page, Responded(status, body)).error == Some(GenericMessage)
  {
    var o := Responded(status, body);
    var text := SearchError(o).value;
    assert text == "Error searching for movies";
    SearchFailedTextClassified(text);
    UnmatchedErrorShowsGenericMessage(s, query, page, o);
  }

  /** The service's "Movie not found!" refusal shows the not-found message. */
  lemma NotFoundRefusalShowsNotFoundMessage(s: AppState, query: string, page: int, status: nat, body: SearchBody, text: string)
    requires IsOk(status) && body.response == "False" && body.error == Some(text)
    requires text == "Movie not found!"
    ensures SearchMovies(s, query, page, Responded(status, body)).error == Some(MovieNotFoundMessage)
  {
    MovieNotFoundClassified(text);
  }

  /** A failed search commits its query and page but keeps the old pagination bar, so the next
      button then pages through the failed query. */
  lemma FailedSearchKeepsOldPager(s: AppState, query: string, o: SearchOutcome, next: SearchOutcome)
    requires SearchError(o).Some? && s.totalResults > PageSize
    requires s.pager.Shown? && !s.pager.nextDisabled
    ensures var f := SearchMovies(s, query, 1, o);
      && f.pager == s.pager && f.currentQuery == query && f.totalResults == s.totalResults
      && Step(f, NextClicked(next)).requests == f.requests + [SearchRequest(query, 2)]
  {
  }

  /** A query answered with 23 results: page 1 of 3 (1-10 of 23), previous disabled, next enabled. */
  lemma TwentyThreeResultsScenario(s: AppState, query: string, o: SearchOutcome)
    requires !IsBlank(query)
    requires o.Responded? && IsOk(o.status) && o.body.response != "False" && o.body.totalResults == 23
    ensures FireTimer(HandleSearch(s, query), o).pager == Shown(1, 3, 1, 10, 23, true, false)
  {
    TwentyThreeResultsOnFirstPage();
  }

  /** In the source, clearing the input after a keystroke leaves the spinner turning with no
      search pending: the state breaks the invariant. */
  lemma BlankAfterTypingLeavesSpinnerAsWritten(s: AppState, typed: string, cleared: string)
    requires Inv(s) && !IsBlank(typed) && IsBlank(cleared)
    ensures var r := HandleSearchAsWritten(HandleSearchAsWritten(s, typed), cleared);
      r.loading && r.pending.None? && !Inv(r)
  {
  }

  /** With the spinner hidden on a blank query, the same keystrokes leave it off. */
  lemma BlankAfterTypingStopsSpinner(s: AppState, typed: string, cleared: string)
    requires Inv(s) && IsBlank(cleared)
    ensures var r := HandleSearch(HandleSearch(s, typed), cleared);
      !r.loading && r.pending.None? && r.view == Welcome && Inv(r)
  {
  }

  /** As written, a found title whose re-search succeeds ends on the results, not the details. */
  lemma FoundDetailsReplacedAsWritten(s: AppState, id: string, d: DetailOutcome, o: SearchOutcome)
    requires DetailFound(d) && SearchError(o).None?
    ensures var r := SearchMovieDetailsAsWritten(s, id, d, o);
      r.view != Details(id) && |r.requests| == |s.requests| + 2
  {
  }

  /** With `showMovieDetails` returning normally, a found title stays shown and nothing else is
      requested. */
  lemma FoundDetailsStayShown(s: AppState, id: string, d: DetailOutcome, o: SearchOutcome)
    requires DetailFound(d)
    ensures var r := SearchMovieDetails(s, id, d, o);
      r.view == Details(id) && |r.requests| == |s.requests| + 1
  {
  }
}
