/**
 * `MovieSearchApp` as an object whose methods update its fields in place. Each method is proved
 * to leave the object in the state the matching Controller function computes, and to keep the
 * Controller invariant.
 */
module App {
  import opened Wrappers
  import opened Text
  import opened Pagination
  import opened ErrorMessages
  import opened Controller

  class MovieSearchApp {
    /** The armed debounce timer, as the trimmed query it will search; None when none is armed. */
    var searchTimeout: Option<string>
    var currentPage: int
    var totalResults: nat
    var currentQuery: string
    /** The loading spinner. */
    var loading: bool
    /** The error banner: the message shown, or None when hidden. */
    var errorBanner: Option<string>
    /** The results area. */
    var results: View
    /** The pagination bar. */
    var pagination: Pager
    /** The requests sent to the movie service so far. */
    var requests: seq<Request>

    function State(): AppState
      reads this
    {
      AppState(searchTimeout, currentQuery, currentPage, totalResults, loading, errorBanner,
               results, pagination, requests)
    }

    ghost predicate Valid()
      reads this
    {
      Inv(State())
    }

    /** The constructor and `init`: default fields, then the welcome view. */
    constructor ()
      ensures State() == Initial() && Valid()
    {
      searchTimeout := None;
      currentPage := 1;
      totalResults := 0;
      currentQuery := "";
      loading := false;
      errorBanner := None;
      requests := [];
      results := Welcome;
      pagination := Hidden;
    }

    method ShowWelcomeMessage()
      modifies this
      ensures State() == Controller.ShowWelcomeMessage(old(State()))
      ensures old(Valid()) ==> Valid()
    {
      results := Welcome;
      pagination := Hidden;
    }

    /** The input handler: cancel the armed timer, hide the error, then show the welcome view
        for a blank query or arm a timer for the trimmed one. */
    method HandleSearch(query: string)
      modifies this
      ensures State() == Controller.HandleSearch(old(State()), query)
      ensures old(Valid()) ==> Valid()
    {
      ghost var before := State();
      searchTimeout := None;
      errorBanner := None;
      var trimmed := Trim(query);
      if trimmed == "" {
        ShowWelcomeMessage();
        loading := false;
      } else {
        loading := true;
        searchTimeout := Some(trimmed);
      }
      assert State() == Controller.HandleSearch(before, query);
      if Inv(before) {
        HandleSearchKeepsCoreInv(before, query);
      }
    }

    /** The request/response cycle of a search, ending as `outcome`. */
    method SearchMovies(query: string, page: int, outcome: SearchOutcome)
      modifies this
      ensures State() == Controller.SearchMovies(old(State()), query, page, outcome)
      ensures old(Valid()) && page >= 1 ==> Valid()
    {
      ghost var before := State();
      currentQuery := query;
      currentPage := page;
      requests := requests + [SearchRequest(query, page)];
      var failure := SearchError(outcome);
      if failure.Some? {
        errorBanner := Some(GetErrorMessage(failure.value));
        assert State().(loading := false) == Controller.SearchMovies(before, query, page, outcome);
      } else {
        totalResults := outcome.body.totalResults;
        results := DisplayResults(outcome.body.search);
        pagination := UpdatePagination(currentPage, totalResults);
        assert State().(loading := false) == Controller.SearchMovies(before, query, page, outcome);
      }
      loading := false;
      assert State() == Controller.SearchMovies(before, query, page, outcome);
      if Inv(before) && page >= 1 {
        SearchMoviesKeepsInv(before, query, page, outcome);
      }
    }

    /** The debounce timer's callback: the pending query is searched on page 1. */
    method FirePendingSearch(outcome: SearchOutcome)
      modifies this
      ensures State() == FireTimer(old(State()), outcome)
      ensures old(Valid()) ==> Valid()
    {
      ghost var before := State();
      if searchTimeout.Some? {
        var query := searchTimeout.value;
        searchTimeout := None;
        ghost var armed := State();
        SearchMovies(query, 1, outcome);
        assert State() == FireTimer(before, outcome);
        if Inv(before) {
          SearchMoviesKeepsInv(armed, query, 1, outcome);
        }
      }
    }

    /** A page outside 1..TotalPages is ignored; any other is searched with the current query. */
    method GoToPage(page: int, outcome: SearchOutcome)
      modifies this
      ensures State() == Controller.GoToPage(old(State()), page, outcome)
      ensures old(Valid()) ==> Valid()
    {
      if page < 1 {
        return;
      }
      var totalPages := TotalPages(totalResults);
      if page > totalPages {
        return;
      }
      SearchMovies(currentQuery, page, outcome);
    }

    method BackToSearch(outcome: SearchOutcome)
      modifies this
      ensures State() == Controller.BackToSearch(old(State()), outcome)
      ensures old(Valid()) ==> Valid()
    {
      SearchMovies(currentQuery, currentPage, outcome);
    }

    /** The detail lookup for a card: its details, or on any failure the search again. */
    method SearchMovieDetails(imdbID: string, detail: DetailOutcome, outcome: SearchOutcome)
      modifies this
      ensures State() == Controller.SearchMovieDetails(old(State()), imdbID, detail, outcome)
      ensures old(Valid()) ==> Valid()
    {
      ghost var before := State();
      loading := true;
      requests := requests + [DetailRequest(imdbID)];
      if DetailFound(detail) {
        results := Details(imdbID);
      } else {
        BackToSearch(outcome);
      }
      loading := false;
      if Inv(before) {
        SearchMovieDetailsKeepsInv(before, imdbID, detail, outcome);
      }
    }
  }
}
