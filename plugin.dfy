/**
 * The jQuery entry points: `$.fn.Rating` binds a widget to each element of
 * a selection at most once, and `$.fn.RatingValue` / `$.fn.RatingPercents`
 * get or set through the widget of the selection's first element. The
 * per-element `data('Rating')` store is a map from element to widget.
 */
module Plugin {
  import opened Wrappers
  import opened Config
  import opened Stars
  import opened Percents
  import opened Widget

  /** A DOM element, by identity. */
  type Element = nat

  class Registry {
    /** The `Rating` data of each bound element. */
    var widgets: map<Element, Rating>

    ghost function Instances(): set<Rating>
      reads this
    {
      widgets.Values
    }

    ghost function StarArrays(): set<array<Star>>
      reads this
    {
      set w | w in widgets.Values :: w.stars
    }

    /** Every bound widget is valid, and no two elements share a widget or its stars. */
    ghost predicate Valid()
      reads this, Instances(), StarArrays()
    {
      && (forall e | e in widgets :: widgets[e].Valid())
      && (forall e, f | e in widgets && f in widgets && e != f ::
            widgets[e] != widgets[f] && widgets[e].stars != widgets[f].stars)
    }

    constructor ()
      ensures Valid() && widgets == map[]
    {
      widgets := map[];
    }

    /** The widget of the selection's first element, if that element is bound. */
    function Target(selection: seq<Element>): (w: Option<Rating>)
      reads this
      ensures w.Some? <==> |selection| > 0 && selection[0] in widgets
      ensures w.Some? ==> w.value == widgets[selection[0]]
    {
      if |selection| > 0 && selection[0] in widgets then Some(widgets[selection[0]]) else None
    }

    /** What a get/set through the selection may change: the first element's widget and stars. */
    ghost function TargetFrame(selection: seq<Element>): set<object>
      reads this
    {
      match Target(selection)
      case Some(w) => {w, w.stars}
      case None => {}
    }

    /**
     * `$(selection).Rating(options)`: every element that has no widget yet
     * gets a new one; an element that already has one keeps it untouched.
     * `small` is the set of elements that carry the class `small`.
     */
    method Bind(selection: seq<Element>, options: Options, small: set<Element>)
      requires Valid()
      requires Resolve(options).stars >= 1
      requires !Resolve(options).ReadOnly() ==> Round(Resolve(options).rating) >= 0
      modifies this
      ensures Valid()
      ensures widgets.Keys == old(widgets.Keys) + (set e | e in selection)
      ensures forall e | e in old(widgets) :: widgets[e] == old(widgets[e])
      ensures forall e | e in widgets && e !in old(widgets) ::
        && fresh(widgets[e]) && fresh(widgets[e].stars)
        && widgets[e].settings == Resolve(options)
        && widgets[e].value == Resolve(options).rating
        && (Resolve(options).ReadOnly() ==> widgets[e].width == Some(StarWidth(e in small) * Resolve(options).stars))
        && (!Resolve(options).ReadOnly() ==> widgets[e].stars[..] == Committed(Resolve(options).stars, Resolve(options).rating))
    {
      for i := 0 to |selection|
        invariant Valid()
        invariant widgets.Keys == old(widgets.Keys) + (set j | 0 <= j < i :: selection[j])
        invariant forall e | e in old(widgets) :: widgets[e] == old(widgets[e])
        invariant forall e | e in widgets && e !in old(widgets) ::
          && fresh(widgets[e]) && fresh(widgets[e].stars)
          && widgets[e].settings == Resolve(options)
          && widgets[e].value == Resolve(options).rating
          && (Resolve(options).ReadOnly() ==> widgets[e].width == Some(StarWidth(e in small) * Resolve(options).stars))
          && (!Resolve(options).ReadOnly() ==> widgets[e].stars[..] == Committed(Resolve(options).stars, Resolve(options).rating))
      {
        var e := selection[i];
        if e !in widgets {
          var w := new Rating(options, e in small);
          widgets := widgets[e := w];
        }
      }
      assert (set j | 0 <= j < |selection| :: selection[j]) == (set e | e in selection);
    }

    /**
     * `$(selection).RatingValue(value)`: with a value, set the rating of the
     * first element's widget; without one, return it. Nothing happens and
     * nothing is returned when the first element has no widget.
     */
    method RatingValue(selection: seq<Element>, value: Option<real>) returns (r: Option<real>)
      requires Valid()
      requires Target(selection).Some? && value.Some? && !Target(selection).value.settings.ReadOnly()
        ==> Round(value.value) >= 0
      modifies TargetFrame(selection)
      ensures Valid()
      ensures r.Some? <==> Target(selection).Some? && value.None?
      ensures r.Some? ==> r.value == Target(selection).value.value
      ensures Target(selection).Some? && value.Some? ==> Target(selection).value.value == value.value
      ensures match Target(selection)
        case Some(w) => value.Some? ==>
          && (w.settings.ReadOnly() ==> w.fill == Some(ToPercents(value.value, w.settings.stars)))
          && (!w.settings.ReadOnly() ==> w.stars[..] == Light(old(w.stars[..]), Round(value.value), Rated))
        case None => true
      ensures Target(selection).Some? && value.None? ==> unchanged(TargetFrame(selection))
    {
      r := None;
      match Target(selection)
      case Some(w) =>
        if value.Some? {
          w.SetRating(value.value);
        } else {
          var v := w.GetRating();
          r := Some(v);
        }
      case None =>
    }

    /**
     * `$(selection).RatingPercents(value)`: as `RatingValue`, by percentage
     * of the stars.
     */
    method RatingPercents(selection: seq<Element>, percents: Option<real>) returns (r: Option<real>)
      requires Valid()
      requires Target(selection).Some? && percents.Some? && !Target(selection).value.settings.ReadOnly()
        ==> Round(FromPercents(percents.value, Target(selection).value.settings.stars)) >= 0
      modifies TargetFrame(selection)
      ensures Valid()
      ensures r.Some? <==> Target(selection).Some? && percents.None?
      ensures r.Some? ==> r.value == ToPercents(Target(selection).value.value, Target(selection).value.settings.stars)
      ensures Target(selection).Some? && percents.Some? ==>
        ToPercents(Target(selection).value.value, Target(selection).value.settings.stars) == percents.value
      ensures match Target(selection)
        case Some(w) => percents.Some? ==>
          && (w.settings.ReadOnly() ==> w.fill == Some(percents.value))
          && (!w.settings.ReadOnly() ==>
                w.stars[..] == Light(old(w.stars[..]), Round(FromPercents(percents.value, w.settings.stars)), Rated))
        case None => true
      ensures Target(selection).Some? && percents.None? ==> unchanged(TargetFrame(selection))
    {
      r := None;
      match Target(selection)
      case Some(w) =>
        if percents.Some? {
          w.SetRatingPercents(percents.value);
        } else {
          var p := w.GetRatingPercents();
          RatingRoundTrip(w.value, w.settings.stars);
          PercentsRoundTrip(p, w.settings.stars);
          r := Some(p);
        }
      case None =>
    }
  }
}
