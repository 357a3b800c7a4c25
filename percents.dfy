/**
 * Conversions between a rating and a percentage of the star count, as
 * `getRatingPercents`, `setRatingPercents` and the read-only fill use them.
 * Arithmetic is exact (`real`), not IEEE-754.
 */
module Percents {

  /** `rating / stars * 100`: the share of the stars a rating covers. */
  function ToPercents(rating: real, stars: int): (p: real)
    requires stars >= 1
    ensures p * stars as real == rating * 100.0
  {
    rating / stars as real * 100.0
  }

  /** `(percents / 100) * stars`: the rating a percentage of the stars stands for. */
  function FromPercents(percents: real, stars: int): (r: real)
    requires stars >= 1
    ensures r * 100.0 == percents * stars as real
  {
    (percents / 100.0) * stars as real
  }

  /** Setting a percentage and reading it back gives the same percentage. */
  lemma PercentsRoundTrip(percents: real, stars: int)
    requires stars >= 1
    ensures ToPercents(FromPercents(percents, stars), stars) == percents
  {
  }

  /** Reading a rating as a percentage and setting it back gives the same rating. */
  lemma RatingRoundTrip(rating: real, stars: int)
    requires stars >= 1
    ensures FromPercents(ToPercents(rating, stars), stars) == rating
  {
  }

  /** The fill is a monotone image of the rating: no rating, no fill; a full rating, a full bar. */
  lemma PercentsBounds(rating: real, stars: int)
    requires stars >= 1
    ensures rating == 0.0 ==> ToPercents(rating, stars) == 0.0
    ensures rating == stars as real ==> ToPercents(rating, stars) == 100.0
    ensures 0.0 <= rating <= stars as real ==> 0.0 <= ToPercents(rating, stars) <= 100.0
  {
  }
}
