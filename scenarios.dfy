/** Worked examples of the widget's behaviour, derived from the contracts alone. */
module Scenarios {
  import opened Wrappers
  import opened Config
  import opened Stars
  import opened Percents
  import opened Widget
  import opened Plugin

  /** Five stars rated 2: hovering star 4 previews 1..4, leaving shows 1..2 rated again. */
  method HoverPreviewThenLeave() {
    RoundOfInt(2);
    var w := new Rating(Options(Some(5), Some(2.0), None), false);
    assert w.stars[..] == Committed(5, 2.0);
    var e := w.MouseEnter(3);
    assert e == HoveredEvent(4);
    assert w.stars[3].hover && !w.stars[4].hover && !w.stars[0].rated;
    assert w.value == 2.0;
    w.MouseLeave();
    assert w.stars[1].rated && !w.stars[2].rated && !w.stars[3].hover;
  }

  /** A click on star 3 commits 3 without relighting; the next leave shows 1..3 rated. */
  method ClickCommits() {
    var w := new Rating(Options(Some(5), None, None), false);
    var e := w.MouseEnter(2);
    e := w.Click(2);
    assert e == RatedEvent(3);
    assert !w.stars[0].rated && w.stars[2].hover;
    var r := w.GetRating();
    assert r == 3.0;
    RoundOfInt(3);
    w.MouseLeave();
    assert w.stars[2].rated && !w.stars[3].rated && !w.stars[0].hover;
  }

  /** Read-only, five stars rated 3: a 60% fill; setting 40% stores 2 and fills 40%. */
  method ReadOnlyFill() {
    var w := new Rating(Options(Some(5), Some(3.0), Some("on")), true);
    assert w.fill == Some(60.0) && w.width == Some(70);
    w.SetRatingPercents(40.0);
    assert w.value == 2.0 && w.fill == Some(40.0);
  }

  /** Binding an element twice keeps its first widget; an unbound element yields nothing. */
  method BindOnce() {
    var reg := new Registry();
    reg.Bind([7], Options(None, Some(1.0), None), {});
    var w := reg.widgets[7];
    reg.Bind([7, 8], Options(Some(10), None, Some("on")), {});
    assert reg.widgets[7] == w && w.settings.stars == 5;
    assert reg.widgets[8].settings.stars == 10;
    var v := reg.RatingValue([7, 8], None);
    assert v == Some(1.0);
    v := reg.RatingValue([9], Some(4.0));
    assert v == None;
  }

  /** A clickable element bound with rating 0 starts with no star lit. */
  method BindShowsInitialRating() {
    var reg := new Registry();
    reg.Bind([3], Options(Some(5), Some(0.0), None), {});
    var stars := reg.widgets[3].stars[..];
    assert stars == Committed(5, 0.0);
    assert forall k :: 0 <= k < |stars| ==> !stars[k].rated && !stars[k].hover;
  }
}
