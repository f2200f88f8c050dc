/**
 * The home page's testimonial carousel: an index into the testimonial
 * list, moved by the five-second auto-rotation, the previous/next arrows
 * and the dots, and the five-star rating row of the shown testimonial.
 * Timer firings and clicks are discrete events; `%` is JavaScript's.
 */
module Carousel {
  import opened Common
  import opened JsNumber

  datatype Testimonial = Testimonial(name: string, role: string, rating: int)

  /** The three testimonials the page lists (quotes and portraits left out). */
  const Testimonials: seq<Testimonial> := [
    Testimonial("Sarah Johnson", "Business Traveler", 5),
    Testimonial("Michael Chen", "Adventure Seeker", 5),
    Testimonial("Priya Sharma", "Family Vacationer", 4)
  ]

  /** The number of rating stars drawn. */
  const StarCount: nat := 5

  /** `(prev + 1) % n`: the auto-rotation tick and the "next" arrow. */
  function Advance(i: int, n: int): (j: int)
    requires n > 0
    ensures 0 <= i < n ==> 0 <= j < n
    ensures 0 <= i < n - 1 ==> j == i + 1
    ensures i == n - 1 ==> j == 0
  {
    Rem(i + 1, n)
  }

  /** `(prev - 1 + n) % n`: the "previous" arrow. */
  function Retreat(i: int, n: int): (j: int)
    requires n > 0
    ensures 0 <= i < n ==> 0 <= j < n
    ensures 0 < i < n ==> j == i - 1
    ensures i == 0 ==> j == n - 1
  {
    Rem(i - 1 + n, n)
  }

  datatype Event = Tick | NextClick | PrevClick | DotClick(k: int)

  /** An event the page can produce: the dots are drawn for indices `0 .. n-1` only. */
  predicate ValidEvent(e: Event, n: int) {
    e.DotClick? ==> 0 <= e.k < n
  }

  /** How `activeTestimonial` responds to one event. */
  function Step(i: int, n: int, e: Event): (j: int)
    requires n > 0
    ensures 0 <= i < n && ValidEvent(e, n) ==> 0 <= j < n
    ensures e.DotClick? ==> j == e.k
  {
    match e
    case Tick => Advance(i, n)
    case NextClick => Advance(i, n)
    case PrevClick => Retreat(i, n)
    case DotClick(k) => k
  }

  /** The index after a sequence of events. */
  function Run(i: int, n: int, events: seq<Event>): int
    requires n > 0
    decreases |events|
  {
    if |events| == 0 then i else Run(Step(i, n, events[0]), n, events[1..])
  }

  /** From any valid index, whatever the visitor and the timer do, the index always names a testimonial. */
  lemma {:induction false} RunStaysInRange(i: int, n: int, events: seq<Event>)
    requires n > 0 && 0 <= i < n
    requires forall m :: 0 <= m < |events| ==> ValidEvent(events[m], n)
    ensures 0 <= Run(i, n, events) < n
    decreases |events|
  {
    if |events| > 0 {
      RunStaysInRange(Step(i, n, events[0]), n, events[1..]);
    }
  }

  /** "Previous" undoes "next" and "next" undoes "previous". */
  lemma RetreatAdvanceInverse(i: int, n: int)
    requires 0 <= i < n
    ensures Retreat(Advance(i, n), n) == i
    ensures Advance(Retreat(i, n), n) == i
  {
  }

  /** `k` auto-rotation ticks from `i`. */
  function AdvanceTimes(i: int, n: int, k: nat): int
    requires n > 0
    decreases k
  {
    if k == 0 then i else Advance(AdvanceTimes(i, n, k - 1), n)
  }

  /** Below the end of the list, `k` ticks move the index `k` places forward. */
  lemma {:induction false} AdvanceTimesClimbs(i: int, n: int, k: nat)
    requires 0 <= i && i + k < n
    ensures AdvanceTimes(i, n, k) == i + k
    decreases k
  {
    if k > 0 {
      AdvanceTimesClimbs(i, n, k - 1);
    }
  }

  /** Ticks compose: `a` ticks then `b` ticks are `a + b` ticks. */
  lemma {:induction false} AdvanceTimesAdd(i: int, n: int, a: nat, b: nat)
    requires n > 0
    ensures AdvanceTimes(i, n, a + b) == AdvanceTimes(AdvanceTimes(i, n, a), n, b)
    decreases b
  {
    if b > 0 {
      AdvanceTimesAdd(i, n, a, b - 1);
    }
  }

  /** After `n` ticks the carousel is back where it started. */
  lemma FullRotation(i: int, n: int)
    requires 0 <= i < n
    ensures AdvanceTimes(i, n, n) == i
  {
    AdvanceTimesClimbs(i, n, n - 1 - i);
    assert AdvanceTimes(i, n, n - i) == 0;
    AdvanceTimesAdd(i, n, n - i, i);
    AdvanceTimesClimbs(0, n, i);
  }

  /** A dot is highlighted when its index is the active one. */
  predicate DotActive(index: int, active: int) {
    active == index
  }

  /** The highlighted dots among `0 .. n-1`. */
  function ActiveDots(active: int, n: nat): set<int> {
    set index | 0 <= index < n && DotActive(index, active)
  }

  /** Exactly one dot is highlighted: the active one. */
  lemma ExactlyOneActiveDot(active: int, n: nat)
    requires 0 <= active < n
    ensures ActiveDots(active, n) == {active}
  {
  }

  /** Star `i` (counting from 0) is filled when `i < rating`. */
  predicate StarFilled(i: int, rating: int) {
    i < rating
  }

  /** How many of the first `k` stars are filled. */
  function FilledAmong(rating: int, k: nat): nat
    decreases k
  {
    if k == 0 then 0 else FilledAmong(rating, k - 1) + (if StarFilled(k - 1, rating) then 1 else 0)
  }

  /** Of the first `k` stars, `rating` clamped to `[0, k]` are filled. */
  lemma {:induction false} FilledAmongClamps(rating: int, k: nat)
    ensures FilledAmong(rating, k) == Min(if rating < 0 then 0 else rating, k)
    decreases k
  {
    if k > 0 {
      FilledAmongClamps(rating, k - 1);
    }
  }

  /** The shown testimonial fills exactly as many of the five stars as its rating. */
  lemma TestimonialStars(i: int)
    requires 0 <= i < |Testimonials|
    ensures FilledAmong(Testimonials[i].rating, StarCount) == Testimonials[i].rating
  {
    FilledAmongClamps(Testimonials[i].rating, StarCount);
  }
}
