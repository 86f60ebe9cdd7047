# wanderfilms search controller, modelled in Dafny

This project models `MovieSearchApp` in `js/script.js`. It is the browser-side controller of a
movie search page that queries the OMDb service. The model covers:

- the controller's state: the armed debounce timer (`searchTimeout`), `currentQuery`,
  `currentPage` and `totalResults`, plus the view flags the controller sets (loading spinner,
  error banner, results area, pagination bar);
- the state transitions `handleSearch`, `searchMovies`, `goToPage`, `backToSearch` and
  `searchMovieDetails`, and the two page buttons wired in `bindEvents`;
- the pagination arithmetic of `updatePagination`;
- the error-message choice of `getErrorMessage`;
- the field defaults of `createMovieCard`.

Files, one module each:

- `wrappers.dfy` (`Wrappers`): `Option`, standing for a value that may be `undefined`.
- `text.dfy` (`Text`): the JavaScript string built-ins the controller uses: `trim`, `includes`,
  and the decimal text of a number.
- `pagination.dfy` (`Pagination`): `Math.ceil(total / 10)` as `(total + 9) / 10`, the visibility
  threshold, the "first-last of total" window, the button states, and the `goToPage` guard.
- `error_messages.dfy` (`ErrorMessages`): the four phrase tests, in priority order, and their
  messages.
- `movie_card.dfy` (`MovieCard`): a search item with optional fields, and the card it becomes.
- `controller.dfy` (`Controller`): the whole controller state as a value (`AppState`), each
  transition as a function, an event type with `Step` and `Run` (and `StepAsWritten` /
  `RunAsWritten` for the handler as written), the invariants `CoreInv` and `Inv`, and lemmas
  about runs of events.
- `app.dfy` (`App`): the class `MovieSearchApp`. Its fields mirror the source object and its
  methods update them in place. Each method is proved to reach the state the matching
  `Controller` function computes, and to keep `Inv`.

External effects become inputs:

- The network: a search ends as a `SearchOutcome`. Either the request (or JSON decoding)
  rejects with a message, or a response arrives with a status and a decoded body. A detail
  lookup ends as a `DetailOutcome`.
- Every request sent is appended to a `requests` log, so "sends exactly one search" can be
  stated.
- The 500 ms debounce timer is the pending slot plus an explicit firing event
  (`FireTimer`, `FirePendingSearch`).

## Model

| member | source | states |
|---|---|---|
| `Text.TrimStart` | js/script.js:43 | the result is a suffix of the input; every dropped character is trimmable; the result does not start with one |
| `Text.TrimEnd` | js/script.js:43 | the result is a prefix of the input; every dropped character is trimmable; the result does not end with one |
| `Text.Trim` | js/script.js:43 | `query.trim()`: the result is empty exactly when every character is trimmable; otherwise it neither starts nor ends with one |
| `Text.TrimIsSlice` | js/script.js:43 | `query.trim()` is exactly the input with its leading and trailing trimmable characters cut off: the result is the slice of the input at some index, and every character before or after that slice is trimmable |
| `Text.TrimIdempotent` | js/script.js:50-51 | trimming the already trimmed query changes nothing, so the armed search carries a trimmed query |
| `Text.Contains` | js/script.js:291-300 | `includes`: the phrase is a prefix of the text or occurs in its tail; specified by `ContainsIffOccurs` |
| `Text.ContainsIffOccurs` | js/script.js:291 | the recursive `includes` holds exactly when the phrase occurs at some index |
| `Text.ContainedCharsOccur` | js/script.js:291 | every character of a contained phrase occurs in the text |
| `Text.MissingCharNotContained` | js/script.js:291 | a phrase with a character the text lacks is not contained in it |
| `Text.NatToString` | js/script.js:65 | the status text in the HTTP error message is decimal digits that denote the status, with no leading zero unless the text is "0" |
| `Pagination.TotalPages` | js/script.js:220 | `Math.ceil(total/10)`: the least page count whose ten-per-page capacity holds `total` |
| `Pagination.UpdatePagination` | js/script.js:207-228 | the bar is hidden exactly when there is at most one page; when shown it names the given page and total and `TotalPages(total)` pages |
| `Pagination.PageInRange` | js/script.js:231-234 | the `goToPage` guard: a page is searched exactly when it is at least 1 and at most `TotalPages(total)`; related to the buttons by `ButtonsMatchGuard` |
| `Pagination.ResultWindow` | js/script.js:221-222 | for a page in range with more than 10 results: `1 <= first <= last <= total`, `last - first < 10`, and only the last page holds fewer than ten |
| `Pagination.ConsecutivePagesAdjoin` | js/script.js:221-222 | page p+1 starts right after the last result of page p |
| `Pagination.ResultOnExactlyOnePage` | js/script.js:220-222 | result k is inside the window of a page in range exactly when that page is `(k-1)/10 + 1` |
| `Pagination.ButtonsMatchGuard` | js/script.js:226-227 | previous is disabled iff page 1, next iff the last page; each is enabled exactly when the `goToPage` call its click makes (lines 27-33) passes the guard of lines 231-234; both enabled strictly between |
| `Pagination.TwentyThreeResultsOnFirstPage` | js/script.js:213-227 | 23 results on page 1 give page 1 of 3, results 1-10, previous disabled, next enabled |
| `ErrorMessages.Classify` | js/script.js:291-303 | the four `includes` tests in source order, choosing the first that holds, else the generic branch; specified by `ClassifyIsFirstMatch`, `RuleWinsIffFirstToMatch` and `GenericIffNoRuleMatches` |
| `ErrorMessages.HttpErrorText` | js/script.js:65 | "HTTP error! status: " followed by the decimal text of the status (`NatToString`) |
| `ErrorMessages.GetErrorMessage` | js/script.js:290-304 | the result is always one of the five messages |
| `ErrorMessages.ClassifyIsFirstMatch` | js/script.js:291-303 | the if-chain equals a first-match reading of the table API key, Too many results, Movie not found, Network, with a generic fallback |
| `ErrorMessages.RuleWinsIffFirstToMatch` | js/script.js:291-302 | rule i is chosen exactly when its phrase occurs and no earlier phrase does |
| `ErrorMessages.GenericIffNoRuleMatches` | js/script.js:303 | the generic message is chosen exactly when none of the four phrases occurs |
| `ErrorMessages.HttpErrorsGetGenericMessage` | js/script.js:64-65 | a failure by HTTP status, whatever the status, always gets the generic message |
| `ErrorMessages.LackingPhraseCharsIsGeneric` | js/script.js:291-303 | a message lacking some character of each of the four phrases takes the generic branch |
| `ErrorMessages.MovieNotFoundClassified` | js/script.js:297-298 | the service's "Movie not found!" gets the not-found message |
| `ErrorMessages.TooManyResultsClassified` | js/script.js:294-295 | the service's "Too many results." gets the too-many-results message |
| `ErrorMessages.InvalidApiKeyClassified` | js/script.js:291-292 | the service's "Invalid API key!" gets the API-key message |
| `ErrorMessages.SearchFailedTextClassified` | js/script.js:71 | the fallback text thrown for a refusal without an `Error` field gets the generic message |
| `MovieCard.CreateMovieCard` | js/script.js:108-120 | a card always has a non-empty title, year and type; its poster is never "N/A" or empty; it keeps the item's id |
| `MovieCard.PresentFieldsPassThrough` | js/script.js:109-112 | present, non-empty title, year, type and poster other than "N/A" are shown unchanged |
| `MovieCard.PlaceholdersExactlyForMissingFields` | js/script.js:109-112 | "No title", "Unknown", "Unknown" and no poster appear exactly when the field is missing or empty (or, for the poster, "N/A"), or already holds the placeholder |
| `MovieCard.CreateMovieCardIdempotent` | js/script.js:108-112 | defaulting a card's own fields again gives the same card |
| `MovieCard.CreateMovieCards` | js/script.js:99 | one card per item, in the same order, each the card of its item |
| `Controller.Initial` | js/script.js:2-16 | the constructor's fields (no armed timer, page 1, total 0, empty query) and `init`'s welcome view with the bar hidden; with `InitialInv` it satisfies the invariant |
| `Controller.ShowWelcomeMessage` | js/script.js:265-288 | the welcome view and a hidden bar, nothing else changed; `App.MovieSearchApp.ShowWelcomeMessage` is its in-place form |
| `Controller.IsBlank` | js/script.js:43 | `!query.trim()`: by `Trim`'s contract, holds exactly when every character of the query is trimmable |
| `Controller.IsOk` | js/script.js:64 | `response.ok` (also at line 138): a status from 200 to 299 |
| `Controller.DetailFound` | js/script.js:138-150 | a detail lookup reaches `showMovieDetails` exactly when the response is ok and its `Response` is not "False" |
| `Controller.SearchError` | js/script.js:60-72 | a search succeeds exactly when the status is ok and `Response` is not "False"; a rejection gives its own message, a status outside 200-299 gives "HTTP error! status: " and the status, a refusal gives its non-empty `Error` text or else "Error searching for movies" |
| `Controller.DisplayResults` | js/script.js:86-106 | `displayResults` of the returned list, an absent list read as empty (line 75): the no-results view exactly when the list is absent or empty, otherwise one card per item, each the card of its item |
| `Controller.HandleSearchAsWritten` | js/script.js:36-53 | the input handler as written: the pending search afterwards depends on the new query alone (none if blank, else the trimmed query); nothing is requested; the banner is hidden; a blank query shows the welcome view and hides the bar but leaves the spinner as it was; a non-blank one turns the spinner on |
| `Controller.HandleSearch` | js/script.js:36-53 | corrected handler (see Findings): the pending search afterwards depends on the new query alone (none if blank, else the trimmed query); nothing is requested; the banner is hidden; a blank query shows the welcome view, hides the bar and stops the spinner |
| `Controller.SearchMovies` | js/script.js:55-84 | query and page are committed and one request is sent whatever the outcome; total, results and bar change only on success; on success the results view is `DisplayResults` of the returned list and the bar is `UpdatePagination` of the page and total; a failure shows the chosen message and keeps the rest; the spinner is off afterwards |
| `Controller.HttpFailureShowsGenericMessage` | js/script.js:64-65 | a search that fails by HTTP status, whatever the status, shows the generic message |
| `Controller.UnmatchedErrorShowsGenericMessage` | js/script.js:78-80 | a failed search whose message matches none of the four phrases shows the generic message |
| `Controller.BareRefusalShowsGenericMessage` | js/script.js:70-71 | a refusal without `Error` text shows the generic message |
| `Controller.NotFoundRefusalShowsNotFoundMessage` | js/script.js:70-71 | the service's "Movie not found!" refusal shows the not-found message |
| `Controller.FireTimer` | js/script.js:50-52 | with nothing pending, firing changes nothing; otherwise the new state is `SearchMovies` of the pending (trimmed) query on page 1 with the slot emptied, so exactly that one search is sent |
| `Controller.GoToPage` | js/script.js:230-237 | a page outside 1..TotalPages leaves the state unchanged; any other gives `SearchMovies` of the current query and that page, so exactly one search is sent and the page committed |
| `Controller.BackToSearch` | js/script.js:203-205 | a full `searchMovies` of the current query and page: the new state is `SearchMovies` of them with the outcome applied, so one search is sent and query and page stay as they were |
| `Controller.SearchMovieDetailsAsWritten` | js/script.js:131-157 | as written (see Findings): every lookup sends the detail request and then the search for the current query and page; the new state is `SearchMovies` of the current query and page applied to the state after the detail request, with the details shown first when the title was found; so a found title whose re-search succeeds ends on the re-searched results, one whose re-search fails keeps the details under the error banner, and a failed lookup is the same as in `SearchMovieDetails` |
| `Controller.SearchMovieDetails` | js/script.js:131-157 | corrected (see Findings), with `showMovieDetails` returning normally: a found title changes only the view (to its details), the request log (one detail request) and the spinner (off); any failure leaves the state `SearchMovies` of the current query and page applied after the detail request |
| `Controller.InitialInv` | js/script.js:2-16 | the initial state satisfies the invariant |
| `Controller.SearchMoviesKeepsInv` | js/script.js:55-84 | a search for a page of at least 1, from a state satisfying the core invariant, ends in a state satisfying the full invariant, since it turns the spinner off |
| `Controller.SearchMovieDetailsKeepsInv` | js/script.js:131-157 | a detail lookup, as written or corrected, from a state satisfying the core invariant ends with the spinner off and the full invariant |
| `Controller.SearchEventKeepsCoreInv` | js/script.js:18-34 | the timer, previous, next and back events keep the core invariant |
| `Controller.Step` | js/script.js:18-34 | the event wiring with the corrected handlers: from `bindEvents`, typing calls `HandleSearch` and the buttons call `GoToPage(currentPage - 1)` and `GoToPage(currentPage + 1)`; from the `onclick` attributes of the markup (js/script.js line 115 for a card, line 164 for the back button), a card click calls the detail lookup and the back button `BackToSearch`; kept invariant by `StepKeepsInv` |
| `Controller.StepAsWritten` | js/script.js:18-34 | the same wiring, including the `onclick` attributes of lines 115 and 164, with the input handler and the detail lookup as written; kept core invariant by `StepKeepsCoreInv` |
| `Controller.HandleSearchKeepsCoreInv` | js/script.js:36-53 | both the handler as written and the corrected one keep the core invariant: page at least 1, pending query trimmed and non-blank, a visible bar shows the current total |
| `Controller.StepKeepsCoreInv` | js/script.js:18-53 | every event, with typing handled as written or corrected, keeps the core invariant |
| `Controller.RunAsWrittenKeepsCoreInv` | js/script.js:18-53 | every run of events handled as written, from a state satisfying the core invariant, keeps it |
| `Controller.StepKeepsInv` | js/script.js:18-53 | with the corrected handler, every event (typing, timer, previous, next, card click, back) keeps the invariant: page at least 1, pending query trimmed and non-blank, spinner only while a search is pending, a visible bar shows the current total |
| `Controller.RunKeepsInv` | js/script.js:18-53 | with the corrected handler, every run of events from a state satisfying the invariant keeps it |
| `Controller.TypeAllLeavesLastPending` | js/script.js:36-53 | with the corrected handler, after a burst of keystrokes only the last one's trimmed query is pending (none if it is blank) and nothing has been requested |
| `Controller.TypeAllAsWrittenLeavesLastPending` | js/script.js:36-53 | the same for the handler as written |
| `Controller.TypingKeepsOnlyLastQuery` | js/script.js:36-53 | after a burst of keystrokes, handled as written or corrected, only the last one's trimmed query is pending (none if it is blank) and nothing has been requested |
| `Controller.BurstSendsOneSearch` | js/script.js:36-53 | a burst of keystrokes, handled as written or corrected, followed by the timer sends exactly one search, for the last trimmed query on page 1, or none when it is blank |
| `Controller.FailedSearchKeepsOldPager` | js/script.js:57-58 | a failed search commits its query but keeps the previous bar and total; when that bar is shown with next enabled, the next button then requests page 2 of the failed query |
| `Controller.TwentyThreeResultsScenario` | js/script.js:50-76 | a non-blank query answered with 23 results shows page 1 of 3, results 1-10, previous disabled and next enabled |
| `Controller.BlankAfterTypingLeavesSpinnerAsWritten` | js/script.js:41-48 | as written, a blank query after a keystroke leaves the spinner on with no search pending, which breaks the invariant |
| `Controller.BlankAfterTypingStopsSpinner` | js/script.js:41-48 | with the spinner hidden on a blank query, the same keystrokes leave it off, show the welcome view and keep the invariant |
| `Controller.FoundDetailsReplacedAsWritten` | js/script.js:150-153 | as written, a found title whose re-search succeeds ends on the results, not the details, after two requests |
| `Controller.FoundDetailsStayShown` | js/script.js:150 | with `showMovieDetails` returning normally, a found title stays shown after the one detail request |
| `App.MovieSearchApp.constructor` | js/script.js:2-16 | the new object is in the initial state and satisfies the invariant |
| `App.MovieSearchApp.ShowWelcomeMessage` | js/script.js:265-288 | the welcome view is shown and the pagination bar hidden; nothing else changes; keeps the invariant |
| `App.MovieSearchApp.HandleSearch` | js/script.js:36-53 | corrected handler: updates the fields in place to `Controller.HandleSearch` of the old state and keeps the invariant |
| `App.MovieSearchApp.SearchMovies` | js/script.js:55-84 | updates the fields in place to `Controller.SearchMovies` of the old state; keeps the invariant for a page of at least 1 |
| `App.MovieSearchApp.FirePendingSearch` | js/script.js:50-52 | updates the fields in place to `Controller.FireTimer` of the old state and keeps the invariant |
| `App.MovieSearchApp.GoToPage` | js/script.js:230-237 | updates the fields in place to `Controller.GoToPage` of the old state and keeps the invariant |
| `App.MovieSearchApp.BackToSearch` | js/script.js:203-205 | updates the fields in place to `Controller.BackToSearch` of the old state and keeps the invariant |
| `App.MovieSearchApp.SearchMovieDetails` | js/script.js:131-157 | corrected lookup: updates the fields in place to `Controller.SearchMovieDetails` of the old state and keeps the invariant |

## Findings

| source | as written | input that shows it | evidently intended | confidence | as-written member | corrected member |
|---|---|---|---|---|---|---|
| js/script.js:43-48 | a blank query returns after showing the welcome view but never hides the spinner that the previous keystroke's `showLoading` turned on; the timer that would have hidden it was just cancelled | type "b", then clear the field within 500 ms: the welcome view shows, the spinner keeps turning, and no search is pending | a blank query also hides the spinner | not executed; high | `Controller.BlankAfterTypingLeavesSpinnerAsWritten` | `Controller.BlankAfterTypingStopsSpinner` |
| js/script.js:200 | `showMovieDetails` ends by calling `this.addMovieDetailsStyles()`, which the class does not define, so it throws a TypeError after rendering; the catch at lines 151-153 calls `backToSearch` | click a card whose lookup succeeds while the re-search also succeeds: the details flash and are replaced by the results list, after a second search request | a found title stays shown | not executed; medium (another script could add the method to the prototype) | `Controller.FoundDetailsReplacedAsWritten` | `Controller.FoundDetailsStayShown` |

`Controller.HandleSearchAsWritten` and `Controller.SearchMovieDetailsAsWritten` are the input
handler and the detail lookup as written, and `StepAsWritten` / `RunAsWritten` run events
through them; the core invariant (without the spinner clause) holds for those runs.
`Controller.HandleSearch` and `Controller.SearchMovieDetails`, which the class, `Step`, `Run`
and the full invariant use, turn the spinner off on a blank query and keep a found title shown.

## Left out

- The HTML markup of `displayResults`, `createMovieCard`, `showMovieDetails` and
  `showWelcomeMessage`. Views are modelled as values: welcome, no results, a list of cards, or
  the details of one id.
- `fetch`, URL building, `encodeURIComponent`, the API key and base URL. Each request is an
  outcome argument and an entry in the `requests` log.
- The JSON decoding of a detail record. Only success or failure of a detail lookup is modelled.
- `parseInt` on a string that is not a decimal number (the NaN case). `totalResults` arrives
  as a natural number.
- Overlapping requests. A request and its response form one step, so the last-response-wins
  race between in-flight searches is not modelled.
- The 5000 ms auto-hide of the error banner. The banner stays shown until the next
  `handleSearch` hides it.
- `console.error` logging, and the global `app` / `window.searchMovieDetails` wiring.
- `js/script.js` defines no `addMovieDetailsStyles`, which `showMovieDetails` calls at line 200.
  As the file stands, every found title is rendered and then the call throws, the catch at lines
  151-153 calls `backToSearch`, and a successful re-search replaces the details.
  `Controller.SearchMovieDetailsAsWritten` models that (see Findings); the class and `Step` use
  the corrected lookup, in which `showMovieDetails` returns normally.
- The initial display of the spinner and the error banner comes from the page markup, which
  is not part of this model. Both are taken to be hidden at start.
- The input handler tests only for a query that is blank after trimming (js/script.js:43); there
  is no minimum length. There is one service, with no provider switch and no localisation.
- `searchMovies` does not turn the spinner on itself; only `handleSearch` and
  `searchMovieDetails` do.
- The page is kept at least 1, but the code does not keep it at most `TotalPages`. For example,
  `backToSearch` re-requests the current page even if the total has since shrunk.
- Every event is accepted in any state. The model does not capture that the page cannot
  deliver some of them: a page-button click (js/script.js:27-33) while the bar is hidden or the
  button disabled, a card click while no results are shown, or a back click while no details are
  shown. The `goToPage` guard is the only filter modelled.
