# Star-rating widget of Metro UI CSS, modelled in Dafny

This project models the jQuery rating plugin `public/js/rating.js`. A widget
bound to an element is either *clickable* or *read-only*.

- A clickable widget creates `stars` star elements, numbered 1..stars.
  Hovering a star previews it with the `hover` class. Leaving the stars
  restores the committed `rated` lighting. A click stores the star's number
  as the rating.
- A read-only widget fills a bar to `rating / stars * 100` percent of a
  container that is `14` or `27` pixels wide per star.

Under the DOM calls the widget is a small state machine, and that is what is
modelled:

- `Config`: the options merged over the defaults (5 stars, rating 0,
  read-only `'off'`). The widget is read-only exactly when the option is the
  string `'on'`.
- `Stars`: `Math.round` as `Round(x) = Floor(x + 0.5)`, and the star
  elements as values (`starIndex`, has `hover`, has `rated`). `Light` is the
  reference definition of `lightStars`. `AfterEnter` and `AfterLeave` give
  what the two hover handlers leave behind.
- `Percents`: the conversions between a rating and a percentage of the stars.
- `Widget`: class `Rating`, one `$.Rating` instance. It holds an `array` of
  stars that `LightStars` updates in place with two loops (remove the class
  everywhere, then add it to the first `Round(n)` stars). It also holds the
  stored rating, the fill percentage and the container width. The three
  handlers return the event they would trigger.
- `Plugin`: class `Registry`, the per-element `data('Rating')` store as a map
  from element to widget. It has the bind-at-most-once loop of `$.fn.Rating`
  and the get/set dispatch of `$.fn.RatingValue` and `$.fn.RatingPercents`.
- `Scenarios`: worked examples derived from the contracts alone: hover
  preview then leave, click then leave, read-only fill, bind once.

Ratings are exact `real`s. Star positions and indices are `int`s.

Two behaviours of the code are easy to misread, and the model keeps both:

- A click only stores the rating (`storeRating`). It does not relight the
  stars. The lighting changes only on the next `mouseleave`.
- The percentage round trip is exact, even in clickable mode. The stored
  value is the unrounded `percents / 100 * stars`. Only the lighting rounds.

## Model

| member | source | states |
|---|---|---|
| `Config.Resolve` | public/js/rating.js:15-38 | each option the caller supplies wins over its default and an omitted one takes the default; the widget is read-only iff the option is exactly `"on"` |
| `Config.DefaultsAreClickable` | public/js/rating.js:15-23 | with no options the widget has 5 stars, rating 0, and is clickable |
| `Stars.Round` | public/js/rating.js:128 | the result is the integer `r` with `r <= x + 0.5 < r + 1`, i.e. `Math.round` with halves rounded up |
| `Stars.RoundOfInt` | public/js/rating.js:102-104 | an integer star index rounds to itself |
| `Stars.Star.Mark` | public/js/rating.js:129-130 | adding or removing one class sets that class as asked and leaves the index and the other class alone |
| `Stars.Light` | public/js/rating.js:126-131 | star k (0-based) carries the class exactly when `k < n`; the index and the other class of every star are unchanged; the count of stars is unchanged |
| `Stars.LightZeroClears` | public/js/rating.js:120-131 | lighting 0 stars removes the class from every star |
| `Stars.LightKeepsIndexed` | public/js/rating.js:92-96 | lighting keeps every star's 1-based `starIndex` equal to its position plus one |
| `Stars.LightIdempotent` | public/js/rating.js:126-131 | lighting the same count twice is the same as lighting it once |
| `Stars.AfterEnter` | public/js/rating.js:101-106 | after a hover on index `i`, no star is rated and exactly stars 1..i are hovered; the indices are kept |
| `Stars.AfterLeave` | public/js/rating.js:107-110 | after leaving with stored rating `v`, no star is hovered and exactly the first `Round(v)` are rated |
| `Stars.Committed` | public/js/rating.js:152-161 | the committed display of rating `v` on `count` stars: indices 1..count, no hover, the first `Round(v)` rated |
| `Stars.LeaveShowsCommitted` | public/js/rating.js:107-110 | whatever the stars showed before, leaving shows exactly the committed display of the stored rating |
| `Stars.HoverThenLeave` | public/js/rating.js:101-110 | a hover preview followed by leaving ends exactly where leaving alone ends: the preview leaves no trace |
| `Stars.ClickThenLeave` | public/js/rating.js:107-115 | after a click stores index `i`, leaving shows exactly stars 1..i as rated |
| `Percents.ToPercents` | public/js/rating.js:59-61 | the percentage `p` satisfies `p * stars == rating * 100` |
| `Percents.FromPercents` | public/js/rating.js:53-55 | the rating `r` satisfies `r * 100 == percents * stars` |
| `Percents.PercentsRoundTrip` | public/js/rating.js:53-61 | setting a percentage and reading the percentage back gives the same percentage |
| `Percents.RatingRoundTrip` | public/js/rating.js:53-61 | reading a rating as a percentage and setting it back gives the same rating |
| `Percents.PercentsBounds` | public/js/rating.js:157-158 | rating 0 fills 0%, rating `stars` fills 100%, a rating in between fills between 0% and 100% |
| `Widget.StarWidth` | public/js/rating.js:74 | a star is 14 pixels wide exactly when the element has class `small`, 27 otherwise |
| `Widget.Rating.constructor` | public/js/rating.js:34-118 | the settings are the merged options; the stored rating is the initial rating; read-only: no stars, width `StarWidth(small) * stars`, fill `rating / stars * 100`; clickable: `stars` stars with indices 1..stars showing the committed display, and no width or fill |
| `Widget.Rating.CreateStars` | public/js/rating.js:91-96 | exactly `count` new stars with `starIndex` 1..count in order and no class |
| `Widget.Rating.LightStars` | public/js/rating.js:126-131 | the stars become `Light(old stars, Round(n), c)` |
| `Widget.Rating.StoreRating` | public/js/rating.js:137-139 | the stored rating becomes `r` and nothing else changes |
| `Widget.Rating.GetRating` | public/js/rating.js:144-146 | returns the stored rating |
| `Widget.Rating.SetRating` | public/js/rating.js:152-163 | the stored rating becomes `r`; read-only: fill `r / stars * 100`, stars untouched; clickable: exactly the first `Round(r)` stars rated, hover and fill untouched; the widget invariant holds afterwards |
| `Widget.Rating.SetRatingPercents` | public/js/rating.js:53-55 | the stored rating becomes `percents / 100 * stars`, whose percentage is `percents` again; the display follows as for `SetRating` |
| `Widget.Rating.GetRatingPercents` | public/js/rating.js:59-61 | returns the percentage that converts back to the stored rating; in read-only mode it is the fill |
| `Widget.Rating.MouseEnter` | public/js/rating.js:101-106 | the stored rating is unchanged; the stars become `AfterEnter(old stars, index)`; the result is `hovered` with the star's index |
| `Widget.Rating.MouseLeave` | public/js/rating.js:107-110 | the stored rating is unchanged; the stars become the committed display of the stored rating |
| `Widget.Rating.Click` | public/js/rating.js:111-115 | the stored rating becomes the star's index; no star and no fill changes; the result is `rated` with the index |
| `Plugin.Registry.Target` | public/js/rating.js:183-185 | there is a widget exactly when the selection is non-empty and its first element is bound, and it is that element's widget |
| `Plugin.Registry.Bind` | public/js/rating.js:169-178 | afterwards every element of the selection is bound; an element bound before keeps its widget; each newly bound element has a fresh widget built from the options, with the initial rating stored, the container width set (read-only) and its stars showing the committed display of the initial rating (clickable) |
| `Plugin.Registry.RatingValue` | public/js/rating.js:183-192 | bound and no value: returns the stored rating and changes nothing; bound and a value: sets it as `SetRating` does and returns nothing; unbound: changes nothing and returns nothing |
| `Plugin.Registry.RatingPercents` | public/js/rating.js:196-205 | as `RatingValue`, by percentage: a get returns the stored rating's percentage and changes nothing; a set makes that percentage the given one and fills to it (read-only) or rates exactly the first `Round(percents / 100 * stars)` stars (clickable); unbound: changes nothing and returns nothing |

## Left out

- DOM and jQuery mechanics are not modelled as such: `appendTo`, `find`, `css`, the `href` of the stars, and the CSS text `percents + '%'`. Classes are per-star flags, and widths and fills are numbers.
- Event dispatch through `$element.trigger` is not modelled. Each handler returns the event it would trigger instead.
- The page-ready scan and the reading of `data-param*` attributes (public/js/rating.js:209-220) are not modelled. They are host start-up code.
- JavaScript numbers are not modelled as IEEE-754 doubles. Arithmetic is exact, so NaN, infinities and rounding error do not arise.
- Option values of other JavaScript types are not modelled: numeric strings, `null`, a boolean `readOnly`. A boolean `true` is never the string `'on'`, so it acts like any non-`'on'` string.
- The `static-rating` class is not modelled. The `small` class is modelled only through the choice between 14 and 27 pixels.
- `$.fn.Rating` returns the selection so calls can be chained. That return value is not modelled.
- The stored rating before the first `setRating` is JavaScript `undefined`. It is never observable, because construction always ends with `setRating`.
- Widget.Rating.LightStars: requires `Round(n) >= 0`. For a negative count, what jQuery's `:lt()` filter selects depends on the jQuery version, so that case is not modelled.
- Widget.Rating.SetRating: requires `Round(r) >= 0` in clickable mode, because it lights `r` stars with `LightStars`.
- Widget.Rating.SetRatingPercents: requires a rating that rounds to at least 0 in clickable mode, as `SetRating` does.
- Widget.Rating.constructor: requires at least one star, and an initial rating that rounds to at least 0 in clickable mode. The source does not check the count; with zero stars the percentage divides by zero.
- Plugin.Registry.Bind: requires the same of the options as the widget constructor, even when every element of the selection is already bound.
- Plugin.Registry.RatingValue: requires a value that rounds to at least 0 when it sets a clickable widget.
- Plugin.Registry.RatingPercents: requires a percentage whose rating rounds to at least 0 when it sets a clickable widget.
- Widget.Rating.MouseEnter: requires a star that exists. The browser delivers the event only to a star element.
- Widget.Rating.Click: requires a star that exists, as `MouseEnter` does.
- Widget.Rating.MouseLeave: requires clickable mode. Only clickable widgets have stars to leave.
- Elements are identified by a natural number. The `small` class of each element is passed to `Bind` as the set of elements that carry it.
