/**
 * The star elements of a clickable widget as values, and what the
 * `lightStars` routine of `$.Rating` does to them, stated as a function
 * over the sequence of stars in document order.
 */
module Stars {

  /** `Math.round` on exact reals: halves round up, towards +infinity. */
  function Round(x: real): (r: int)
    ensures r as real <= x + 0.5 < r as real + 1.0
  {
    (x + 0.5).Floor
  }

  /** A whole number is its own rounding, so star indices pass through `lightStars` unchanged. */
  lemma RoundOfInt(i: int)
    ensures Round(i as real) == i
  {
  }

  /** The two CSS classes `lightStars` switches: `hover` (preview) and `rated` (committed). */
  datatype Class = Hover | Rated

  /** One `<a>` star element: its 1-based `starIndex` data and whether it carries each class. */
  datatype Star = Star(index: int, hover: bool, rated: bool) {

    predicate Has(c: Class) {
      match c
      case Hover => hover
      case Rated => rated
    }

    /** The star with class `c` added (`on`) or removed; nothing else about it changes. */
    function Mark(c: Class, on: bool): (s: Star)
      ensures s.Has(c) == on
      ensures s.index == index
      ensures c == Hover ==> s.rated == rated
      ensures c == Rated ==> s.hover == hover
    {
      match c
      case Hover => this.(hover := on)
      case Rated => this.(rated := on)
    }
  }

  /** Stars in document order, the k-th (0-based) carrying `starIndex` k + 1. */
  ghost predicate Indexed(s: seq<Star>) {
    forall k :: 0 <= k < |s| ==> s[k].index == k + 1
  }

  /**
   * Class `c` removed from every star, then added to the first `n` stars
   * (the jQuery filter `:lt(n)`): star k carries `c` exactly when k < n and
   * keeps everything else.
   */
  function Light(s: seq<Star>, n: int, c: Class): (r: seq<Star>)
    ensures |r| == |s|
    ensures forall k :: 0 <= k < |s| ==> r[k] == s[k].Mark(c, k < n)
    decreases |s|
  {
    if s == [] then [] else [s[0].Mark(c, 0 < n)] + Light(s[1..], n - 1, c)
  }

  /** Lighting zero stars is how every star loses class `c`. */
  lemma LightZeroClears(s: seq<Star>, c: Class)
    ensures forall k :: 0 <= k < |s| ==> !Light(s, 0, c)[k].Has(c)
  {
  }

  /** Lighting preserves the star elements and their indices. */
  lemma LightKeepsIndexed(s: seq<Star>, n: int, c: Class)
    requires Indexed(s)
    ensures Indexed(Light(s, n, c))
  {
  }

  /** Lighting twice with the same count is lighting once. */
  lemma LightIdempotent(s: seq<Star>, n: int, c: Class)
    ensures Light(Light(s, n, c), n, c) == Light(s, n, c)
  {
  }

  /** The stars after `mouseenter` on the star with index `i`: `lightStars(0, true)` then `lightStars(i)`. */
  function AfterEnter(s: seq<Star>, i: int): (r: seq<Star>)
    ensures |r| == |s|
    ensures forall k :: 0 <= k < |s| ==> r[k].index == s[k].index && !r[k].rated && (r[k].hover <==> k < i)
  {
    Light(Light(s, 0, Rated), i, Hover)
  }

  /** The stars after `mouseleave` with stored rating `v`: `lightStars(0)` then `lightStars(v, true)`. */
  function AfterLeave(s: seq<Star>, v: real): (r: seq<Star>)
    ensures |r| == |s|
    ensures forall k :: 0 <= k < |s| ==> r[k].index == s[k].index && !r[k].hover && (r[k].rated <==> k < Round(v))
  {
    Light(Light(s, 0, Hover), Round(v), Rated)
  }

  /** The committed lighting of `count` indexed stars for rating `v`: no hover, the first `Round(v)` rated. */
  function Committed(count: nat, v: real): (r: seq<Star>)
    ensures |r| == count && Indexed(r)
    ensures forall k :: 0 <= k < count ==> !r[k].hover && (r[k].rated <==> k < Round(v))
  {
    seq(count, k => Star(k + 1, false, k < Round(v)))
  }

  /** Leaving shows the committed lighting, whatever the stars showed before. */
  lemma LeaveShowsCommitted(s: seq<Star>, v: real)
    requires Indexed(s)
    ensures AfterLeave(s, v) == Committed(|s|, v)
  {
  }

  /** A hover preview followed by leaving ends exactly where leaving alone ends. */
  lemma HoverThenLeave(s: seq<Star>, i: int, v: real)
    ensures AfterLeave(AfterEnter(s, i), v) == AfterLeave(s, v)
  {
  }

  /** After a click on star i (which stores i), leaving lights exactly stars 1..i as rated. */
  lemma ClickThenLeave(s: seq<Star>, i: int)
    ensures var r := AfterLeave(s, i as real); forall k :: 0 <= k < |r| ==> (r[k].rated <==> k < i)
  {
  }
}
