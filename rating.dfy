/**
 * One `$.Rating` instance bound to one element: its settings, the star
 * elements it created (clickable mode) or its fill bar (read-only mode),
 * and the rating value it stores on the element.
 */
module Widget {
  import opened Wrappers
  import opened Config
  import opened Stars
  import opened Percents

  /** The custom events the handlers trigger on the element, with the star index. */
  datatype Event = HoveredEvent(index: int) | RatedEvent(index: int)

  /** Pixel width of one star: 14 for an element with class `small`, 27 otherwise. */
  function StarWidth(small: bool): (w: int)
    ensures w == 14 || w == 27
    ensures small <==> w == 14
  {
    if small then 14 else 27
  }

  class Rating {
    const settings: Settings
    /** Clickable mode: the star elements in document order; read-only mode: none. */
    const stars: array<Star>
    /** Read-only mode: the container width in pixels; the widget sets no width otherwise. */
    const width: Option<int>
    /** Read-only mode: the width of the inner `rating-value` element, in percent. */
    var fill: Option<real>
    /** The stored rating (`rating-val` data of the element). */
    var value: real

    /** The elements built at construction: their count, indices and mode. */
    ghost predicate WellFormed()
      reads this, stars
    {
      && settings.stars >= 1
      && (settings.ReadOnly() ==> stars.Length == 0 && width.Some?)
      && (!settings.ReadOnly() ==> stars.Length == settings.stars && Indexed(stars[..]) && width.None? && fill.None?)
    }

    /** WellFormed, and the display agrees with the stored rating where the source keeps them in step. */
    ghost predicate Valid()
      reads this, stars
    {
      && WellFormed()
      && (settings.ReadOnly() ==> fill == Some(ToPercents(value, settings.stars)))
      && (!settings.ReadOnly() ==> Round(value) >= 0)
    }

    /** `$.Rating(element, options)`: merge the settings, then `readOnlyInit` or `clickableInit`. */
    constructor (options: Options, small: bool)
      requires Resolve(options).stars >= 1
      requires !Resolve(options).ReadOnly() ==> Round(Resolve(options).rating) >= 0
      ensures Valid() && fresh(stars)
      ensures settings == Resolve(options)
      ensures value == settings.rating
      ensures settings.ReadOnly() ==> width == Some(StarWidth(small) * settings.stars)
      ensures settings.ReadOnly() ==> fill == Some(ToPercents(settings.rating, settings.stars))
      ensures !settings.ReadOnly() ==> stars[..] == Committed(settings.stars, settings.rating)
    {
      settings := Resolve(options);
      var s := Resolve(options);
      if s.ReadOnly() {
        width := Some(StarWidth(small) * s.stars);
        stars := new Star[0];
      } else {
        width := None;
        var created := CreateStars(s.stars);
        stars := created;
      }
      fill := None;
      value := 0.0;
      new;
      ghost var created := stars[..];
      SetRating(s.rating);
      if !s.ReadOnly() {
        LeaveShowsCommitted(created, s.rating);
        assert Light(created, 0, Hover) == created;
      }
    }

    /** The star loop of `clickableInit`: `count` new stars with `starIndex` 1..count and no class. */
    static method CreateStars(count: int) returns (a: array<Star>)
      requires count >= 0
      ensures fresh(a)
      ensures a.Length == count && Indexed(a[..])
      ensures forall k :: 0 <= k < count ==> !a[k].hover && !a[k].rated
    {
      a := new Star[count];
      for i := 1 to count + 1
        invariant forall k :: 0 <= k < i - 1 ==> a[k] == Star(k + 1, false, false)
      {
        a[i - 1] := Star(i, false, false);
      }
    }

    /** `lightStars(n, c)`: remove `c` from every star, then add it to the first `Round(n)`. */
    method LightStars(n: real, c: Class)
      requires Round(n) >= 0
      modifies stars
      ensures stars[..] == Light(old(stars[..]), Round(n), c)
    {
      var count := Round(n);
      var i := 0;
      while i < stars.Length
        invariant 0 <= i <= stars.Length
        invariant forall k :: 0 <= k < i ==> stars[k] == old(stars[k]).Mark(c, false)
        invariant forall k :: i <= k < stars.Length ==> stars[k] == old(stars[k])
      {
        stars[i] := stars[i].Mark(c, false);
        i := i + 1;
      }
      i := 0;
      while i < stars.Length && i < count
        invariant 0 <= i <= stars.Length && i <= count
        invariant forall k :: 0 <= k < i ==> stars[k] == old(stars[k]).Mark(c, true)
        invariant forall k :: i <= k < stars.Length ==> stars[k] == old(stars[k]).Mark(c, false)
      {
        stars[i] := stars[i].Mark(c, true);
        i := i + 1;
      }
      forall k | 0 <= k < stars.Length
        ensures stars[k] == old(stars[k]).Mark(c, k < count)
      {
        if k < i {
          assert k < count;
        } else {
          assert !(k < count);
        }
      }
    }

    /** `storeRating`: write the stored rating and nothing else. */
    method StoreRating(r: real)
      modifies this`value
      ensures value == r
    {
      value := r;
    }

    /** `getRating`: the stored rating, which only a committed set or a click changes. */
    method GetRating() returns (r: real)
      ensures r == value
    {
      r := value;
    }

    /**
     * `setRating`: store the rating, then show it: the fill percentage in
     * read-only mode, the first `Round(r)` stars rated in clickable mode.
     */
    method SetRating(r: real)
      requires WellFormed()
      requires !settings.ReadOnly() ==> Round(r) >= 0
      modifies this, stars
      ensures Valid()
      ensures value == r
      ensures settings.ReadOnly() ==> fill == Some(ToPercents(r, settings.stars)) && stars[..] == old(stars[..])
      ensures !settings.ReadOnly() ==> fill == old(fill) && stars[..] == Light(old(stars[..]), Round(r), Rated)
    {
      StoreRating(r);
      if settings.ReadOnly() {
        fill := Some(ToPercents(r, settings.stars));
      } else {
        LightStars(r, Rated);
        LightKeepsIndexed(old(stars[..]), Round(r), Rated);
      }
    }

    /** `setRatingPercents`: set the rating that is `percents` percent of the stars. */
    method SetRatingPercents(percents: real)
      requires WellFormed()
      requires !settings.ReadOnly() ==> Round(FromPercents(percents, settings.stars)) >= 0
      modifies this, stars
      ensures Valid()
      ensures value == FromPercents(percents, settings.stars)
      ensures ToPercents(value, settings.stars) == percents
      ensures settings.ReadOnly() ==> fill == Some(percents) && stars[..] == old(stars[..])
      ensures !settings.ReadOnly() ==> fill == old(fill) && stars[..] == Light(old(stars[..]), Round(value), Rated)
    {
      SetRating(FromPercents(percents, settings.stars));
      PercentsRoundTrip(percents, settings.stars);
    }

    /** `getRatingPercents`: the stored rating as a percentage of the stars. */
    method GetRatingPercents() returns (p: real)
      requires Valid()
      ensures FromPercents(p, settings.stars) == value
      ensures settings.ReadOnly() ==> fill == Some(p)
    {
      var r := GetRating();
      p := ToPercents(r, settings.stars);
      RatingRoundTrip(r, settings.stars);
    }

    /**
     * The `mouseenter` handler on the star at position `k`: clear `rated`,
     * light stars 1..index with `hover`, trigger `hovered`. The stored
     * rating is untouched.
     */
    method MouseEnter(k: int) returns (e: Event)
      requires Valid()
      requires 0 <= k < stars.Length
      modifies stars
      ensures Valid()
      ensures value == old(value)
      ensures stars[..] == AfterEnter(old(stars[..]), k + 1)
      ensures e == HoveredEvent(k + 1)
    {
      var index := stars[k].index;
      LightStars(0.0, Rated);
      RoundOfInt(index);
      LightStars(index as real, Hover);
      LightKeepsIndexed(old(stars[..]), 0, Rated);
      LightKeepsIndexed(Light(old(stars[..]), 0, Rated), index, Hover);
      e := HoveredEvent(index);
    }

    /**
     * The `mouseleave` handler: clear `hover`, then light the stored
     * rating with `rated` again.
     */
    method MouseLeave()
      requires Valid()
      requires !settings.ReadOnly()
      modifies stars
      ensures Valid()
      ensures value == old(value)
      ensures stars[..] == AfterLeave(old(stars[..]), value)
      ensures stars[..] == Committed(settings.stars, value)
    {
      LightStars(0.0, Hover);
      var r := GetRating();
      LightStars(r, Rated);
      LightKeepsIndexed(old(stars[..]), 0, Hover);
      LightKeepsIndexed(Light(old(stars[..]), 0, Hover), Round(r), Rated);
      LeaveShowsCommitted(old(stars[..]), value);
    }

    /**
     * The `click` handler on the star at position `k`: store its index as
     * the rating and trigger `rated`. It only stores, so no star changes.
     */
    method Click(k: int) returns (e: Event)
      requires Valid()
      requires 0 <= k < stars.Length
      modifies this
      ensures Valid()
      ensures value == (k + 1) as real
      ensures stars[..] == old(stars[..]) && fill == old(fill)
      ensures e == RatedEvent(k + 1)
    {
      var index := stars[k].index;
      StoreRating(index as real);
      RoundOfInt(index);
      e := RatedEvent(index);
    }
  }
}
