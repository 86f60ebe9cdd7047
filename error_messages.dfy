/**
 * `getErrorMessage`: the user-facing text for a failed search, chosen by the first of four
 * phrases that occurs in the error's message, with a generic fallback.
 */
module ErrorMessages {
  import opened Text

  const ApiKeyMessage := "Please configure API key for OMDb API"
  const TooManyResultsMessage := "Too many results. Please refine your search query"
  const MovieNotFoundMessage := "Movie not found. Try a different search query"
  const NetworkMessage := "Network error. Check your internet connection"
  const GenericMessage := "An error occurred. Please try again"

  /** The message of the error `searchMovies` throws for a response whose status is not ok. */
  function HttpErrorText(status: nat): string {
    "HTTP error! status: " + NatToString(status)
  }

  /** The message of the error thrown when the service answers `Response: "False"` without an `Error`. */
  const SearchFailedText := "Error searching for movies"

  /** Which branch of `getErrorMessage` an error takes. */
  datatype ErrorKind = ApiKeyError | TooManyResults | MovieNotFound | NetworkError | OtherError

  /** The phrase tests of `getErrorMessage`, tried in order. */
  function Classify(text: string): ErrorKind {
    if Contains(text, "API key") then ApiKeyError
    else if Contains(text, "Too many results") then TooManyResults
    else if Contains(text, "Movie not found") then MovieNotFound
    else if Contains(text, "Network") then NetworkError
    else OtherError
  }

  /** The message each branch returns. */
  function Message(kind: ErrorKind): string {
    match kind
    case ApiKeyError => ApiKeyMessage
    case TooManyResults => TooManyResultsMessage
    case MovieNotFound => MovieNotFoundMessage
    case NetworkError => NetworkMessage
    case OtherError => GenericMessage
  }

  /** `getErrorMessage(error)` for an error whose message is `text`; always one of five messages. */
  function GetErrorMessage(text: string): (r: string)
    ensures r in {ApiKeyMessage, TooManyResultsMessage, MovieNotFoundMessage, NetworkMessage, GenericMessage}
  {
    Message(Classify(text))
  }

  /** The phrases in the order they are tried, each with the branch it selects. */
  const Rules: seq<(string, ErrorKind)> := [
    ("API key", ApiKeyError),
    ("Too many results", TooManyResults),
    ("Movie not found", MovieNotFound),
    ("Network", NetworkError)
  ]

  /** Reference reading of a priority table: the branch of the first rule whose phrase occurs. */
  function FirstMatch(text: string, rules: seq<(string, ErrorKind)>): ErrorKind {
    if rules == [] then OtherError
    else if Contains(text, rules[0].0) then rules[0].1
    else FirstMatch(text, rules[1..])
  }

  /** The if-chain is the priority table read top to bottom. */
  lemma ClassifyIsFirstMatch(text: string)
    ensures Classify(text) == FirstMatch(text, Rules)
  {
    var r1, r2, r3 := Rules[1..], Rules[2..], Rules[3..];
    assert r3[0] == Rules[3] && r3[1..] == [];
    assert FirstMatch(text, r3) == if Contains(text, "Network") then NetworkError else OtherError;
    assert r2[0] == Rules[2] && r2[1..] == r3;
    assert FirstMatch(text, r2) == if Contains(text, "Movie not found") then MovieNotFound else FirstMatch(text, r3);
    assert r1[0] == Rules[1] && r1[1..] == r2;
    assert FirstMatch(text, r1) == if Contains(text, "Too many results") then TooManyResults else FirstMatch(text, r2);
  }

  /** Rule i wins exactly when its phrase occurs and no earlier phrase does. */
  lemma RuleWinsIffFirstToMatch(text: string, i: int)
    requires 0 <= i < |Rules|
    ensures Classify(text) == Rules[i].1 <==>
      Contains(text, Rules[i].0) && forall j :: 0 <= j < i ==> !Contains(text, Rules[j].0)
  {
    if i == 0 {
    } else if i == 1 {
      assert Rules[0].0 == "API key";
    } else if i == 2 {
      assert Rules[0].0 == "API key" && Rules[1].0 == "Too many results";
    } else {
      assert Rules[0].0 == "API key" && Rules[1].0 == "Too many results" && Rules[2].0 == "Movie not found";
    }
  }

  /** The generic branch is taken exactly when none of the four phrases occurs. */
  lemma GenericIffNoRuleMatches(text: string)
    ensures Classify(text) == OtherError <==>
      forall j :: 0 <= j < |Rules| ==> !Contains(text, Rules[j].0)
  {
    assert Rules[0].0 == "API key" && Rules[1].0 == "Too many results";
    assert Rules[2].0 == "Movie not found" && Rules[3].0 == "Network";
  }

  /** Any HTTP status failure is reported with the generic message: its text holds none of the phrases. */
  lemma HttpErrorsGetGenericMessage(status: nat)
    ensures Classify(HttpErrorText(status)) == OtherError
  {
    var text := HttpErrorText(status);
    var prefix := "HTTP error! status: ";
    forall c | c in "AmMN"
      ensures c !in text
    {
      assert c !in prefix;
      assert !IsDigit(c);
    }
    MissingCharNotContained(text, "API key", 'A');
    MissingCharNotContained(text, "Too many results", 'm');
    MissingCharNotContained(text, "Movie not found", 'M');
    MissingCharNotContained(text, "Network", 'N');
  }

  /** The service's "Movie not found!" error selects the not-found branch. */
  lemma MovieNotFoundClassified(text: string)
    requires text == "Movie not found!"
    ensures Classify(text) == MovieNotFound
  {
    MissingCharNotContained(text, "API key", 'A');
    MissingCharNotContained(text, "Too many results", 'T');
    assert text[..15] == "Movie not found";
  }

  /** The service's "Too many results." error selects the too-many-results branch. */
  lemma TooManyResultsClassified(text: string)
    requires text == "Too many results."
    ensures Classify(text) == TooManyResults
  {
    MissingCharNotContained(text, "API key", 'A');
    assert text[..16] == "Too many results";
  }

  /** The service's "Invalid API key!" error selects the API-key branch. */
  lemma InvalidApiKeyClassified(text: string)
    requires text == "Invalid API key!"
    ensures Classify(text) == ApiKeyError
  {
    assert OccursAt(text, "API key", 8);
    ContainsIffOccurs(text, "API key");
  }

  /** A text lacking some character of each of the four phrases takes the generic branch. */
  lemma LackingPhraseCharsIsGeneric(text: string, a: char, t: char, m: char, n: char)
    requires a in "API key" && t in "Too many results" && m in "Movie not found" && n in "Network"
    requires a !in text && t !in text && m !in text && n !in text
    ensures Classify(text) == OtherError
  {
    MissingCharNotContained(text, "API key", a);
    MissingCharNotContained(text, "Too many results", t);
    MissingCharNotContained(text, "Movie not found", m);
    MissingCharNotContained(text, "Network", n);
  }

  /** Proof helper of `SearchFailedTextClassified`: the fallback text has no 'y' (which "API key"
      has) and no 't' (which the other three phrases have). The literal is checked in pieces. */
  lemma SearchFailedTextLacksPhraseChars(text: string)
    requires text == "Error searching for movies"
    ensures 'y' !in text && 't' !in text
  {
    var p1, p2, p3 := "Error ", "searching ", "for movies";
    assert text == p1 + p2 + p3;
    assert 'y' !in p1 && 't' !in p1;
    assert 'y' !in p2 && 't' !in p2;
    assert 'y' !in p3 && 't' !in p3;
  }

  /** The fallback text thrown for a refusal without an `Error` field selects the generic branch. */
  lemma SearchFailedTextClassified(text: string)
    requires text == "Error searching for movies"
    ensures Classify(text) == OtherError
  {
    SearchFailedTextLacksPhraseChars(text);
    LackingPhraseCharsIsGeneric(text, 'y', 't', 't', 't');
  }
}
