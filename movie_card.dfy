/**
 * The field defaults of `createMovieCard`: a search item as the service sends it (any field may
 * be absent) and the card it is shown as.
 */
module MovieCard {
  import opened Wrappers

  /** One element of the service's `Search` array; `None` is an absent field. */
  datatype SearchItem = SearchItem(
    title: Option<string>, year: Option<string>, kind: Option<string>,
    poster: Option<string>, imdbID: Option<string>)

  /** What a card shows: a poster image or the "Poster not available" text, and three labels. */
  datatype Card = Card(id: Option<string>, title: string, year: string, kind: string, poster: Option<string>)

  const NoPoster := "N/A"

  /** JavaScript's `value || fallback` on an optional string: absent and empty are both falsy. */
  function OrElse(value: Option<string>, fallback: string): string {
    if value.Some? && value.value != "" then value.value else fallback
  }

  /** The poster shown: the service's "N/A" marker, an empty and an absent poster all show none. */
  function PosterOf(poster: Option<string>): Option<string> {
    if poster.Some? && poster.value != NoPoster && poster.value != "" then poster else None
  }

  /** `createMovieCard`: present values pass through, missing ones get placeholders. */
  function CreateMovieCard(m: SearchItem): (c: Card)
    ensures c.title != "" && c.year != "" && c.kind != ""
    ensures c.poster != Some(NoPoster) && c.poster != Some("")
    ensures c.id == m.imdbID
  {
    Card(m.imdbID, OrElse(m.title, "No title"), OrElse(m.year, "Unknown"),
         OrElse(m.kind, "Unknown"), PosterOf(m.poster))
  }

  /** A card read back as a search item: every label present, the poster as the service marks it. */
  function AsSearchItem(c: Card): SearchItem {
    SearchItem(Some(c.title), Some(c.year), Some(c.kind),
               if c.poster.Some? then c.poster else Some(NoPoster), c.id)
  }

  /** Defaulting is idempotent: a card built from a card's own fields is that card. */
  lemma CreateMovieCardIdempotent(m: SearchItem)
    ensures CreateMovieCard(AsSearchItem(CreateMovieCard(m))) == CreateMovieCard(m)
  {
  }

  /** Present, non-empty values are shown unchanged. */
  lemma PresentFieldsPassThrough(m: SearchItem)
    ensures var c := CreateMovieCard(m);
      && (m.title.Some? && m.title.value != "" ==> c.title == m.title.value)
      && (m.year.Some? && m.year.value != "" ==> c.year == m.year.value)
      && (m.kind.Some? && m.kind.value != "" ==> c.kind == m.kind.value)
      && (m.poster.Some? && m.poster.value !in {"", NoPoster} ==> c.poster == m.poster)
  {
  }

  /** A field shows its placeholder exactly when the item lacks it (or carries the placeholder itself). */
  lemma PlaceholdersExactlyForMissingFields(m: SearchItem)
    ensures var c := CreateMovieCard(m);
      && (c.title == "No title" <==> m.title.None? || m.title.value in {"", "No title"})
      && (c.year == "Unknown" <==> m.year.None? || m.year.value in {"", "Unknown"})
      && (c.kind == "Unknown" <==> m.kind.None? || m.kind.value in {"", "Unknown"})
      && (c.poster.None? <==> m.poster.None? || m.poster.value in {"", NoPoster})
  {
  }

  /** `movies.map(movie => this.createMovieCard(movie))`, one card per item, in order. */
  function CreateMovieCards(items: seq<SearchItem>): (cards: seq<Card>)
    ensures |cards| == |items|
    ensures forall i :: 0 <= i < |items| ==> cards[i] == CreateMovieCard(items[i])
  {
    if items == [] then [] else [CreateMovieCard(items[0])] + CreateMovieCards(items[1..])
  }
}
