/**
 * Settings of one rating widget: the caller's options merged over the
 * plugin defaults (`$.extend({}, defaults, options)` in `$.Rating.init`).
 */
module Config {
  import opened Wrappers

  const DefaultStars: int := 5
  const DefaultRating: real := 0.0
  const DefaultReadOnly: string := "off"

  /** Options as a caller passes them; `None` is an option left undefined. */
  datatype Options = Options(stars: Option<int>, rating: Option<real>, readOnly: Option<string>)

  /** The resolved settings; fixed once the widget is built. */
  datatype Settings = Settings(stars: int, rating: real, readOnly: string) {

    /** The widget is read-only exactly when the flag is the string "on". */
    predicate ReadOnly() {
      readOnly == "on"
    }
  }

  /** Every option the caller supplies wins over its default; an omitted one takes the default. */
  function Resolve(o: Options): (s: Settings)
    ensures o.stars.Some? ==> s.stars == o.stars.value
    ensures o.stars.None? ==> s.stars == DefaultStars
    ensures o.rating.Some? ==> s.rating == o.rating.value
    ensures o.rating.None? ==> s.rating == DefaultRating
    ensures s.ReadOnly() <==> o.readOnly == Some("on")
  {
    Settings(o.stars.GetOr(DefaultStars), o.rating.GetOr(DefaultRating), o.readOnly.GetOr(DefaultReadOnly))
  }

  /** With no options at all the widget is a clickable five-star widget rated 0. */
  lemma DefaultsAreClickable()
    ensures Resolve(Options(None, None, None)) == Settings(5, 0.0, "off")
    ensures !Resolve(Options(None, None, None)).ReadOnly()
  {
  }
}
