/**
 * The hero carousel of the page header: a slide index over the fixed list of
 * six destinations and the direction of the last move, changed by the
 * 9000 ms interval, the next/previous handlers, swipes and the side
 * indicators. Each interval firing is a call of Tick.
 */
module Hero {

  /** The background image of each slide of `destinations`. */
  const Destinations: seq<string> := [
    "/img/back.jpg",
    "/img/back1.jpg",
    "https://upload.wikimedia.org/wikipedia/commons/a/a8/Tour_Eiffel_Wikimedia_Commons.jpg",
    "https://upload.wikimedia.org/wikipedia/commons/a/a8/Tour_Eiffel_Wikimedia_Commons.jpg",
    "https://upload.wikimedia.org/wikipedia/commons/9/93/Burj_Khalifa_at_night.jpg",
    "https://upload.wikimedia.org/wikipedia/commons/0/0c/Gateway_of_India_Mumbai_India.jpg"
  ]

  /** `destinations.length` */
  const N: nat := |Destinations|

  predicate InRange(i: int) {
    0 <= i < N
  }

  /** `(prev + 1) % destinations.length` */
  function NextIndex(i: int): (r: int)
    requires InRange(i)
    ensures InRange(r)
    ensures r == if i == N - 1 then 0 else i + 1
  {
    (i + 1) % N
  }

  /** `prev === 0 ? destinations.length - 1 : prev - 1` */
  function PrevIndex(i: int): (r: int)
    requires InRange(i)
    ensures InRange(r)
    ensures r == (i - 1 + N) % N
  {
    if i == 0 then N - 1 else i - 1
  }

  /** The direction an indicator click sets: forward only for a later slide. */
  function IndicatorDirection(target: int, current: int): (d: int)
    ensures d == 1 || d == -1
    ensures d == 1 <==> target > current
  {
    if target > current then 1 else -1
  }

  /** The index after `k` consecutive forward moves. */
  function Advance(i: int, k: nat): int
    requires InRange(i)
    ensures InRange(Advance(i, k))
  {
    if k == 0 then i else NextIndex(Advance(i, k - 1))
  }

  lemma PrevUndoesNext(i: int)
    requires InRange(i)
    ensures PrevIndex(NextIndex(i)) == i
  {
  }

  lemma NextUndoesPrev(i: int)
    requires InRange(i)
    ensures NextIndex(PrevIndex(i)) == i
  {
  }

  /** `k` forward moves are addition modulo the number of slides. */
  lemma {:induction false} AdvanceIsModular(i: int, k: nat)
    requires InRange(i)
    ensures Advance(i, k) == (i + k) % N
  {
    if k > 0 {
      AdvanceIsModular(i, k - 1);
    }
  }

  /** After one full round of forward moves the carousel is back where it started. */
  lemma FullRoundReturns(i: int)
    requires InRange(i)
    ensures Advance(i, N) == i
  {
    AdvanceIsModular(i, N);
  }

  class Carousel {
    var current: int
    var direction: int

    ghost predicate Valid()
      reads this
    {
      InRange(current) && (direction == -1 || direction == 0 || direction == 1)
    }

    constructor ()
      ensures Valid() && current == 0 && direction == 0
    {
      current := 0;
      direction := 0;
    }

    /** The interval fires. */
    method Tick()
      requires Valid()
      modifies this
      ensures Valid() && direction == 1 && current == NextIndex(old(current))
    {
      direction := 1;
      current := (current + 1) % N;
    }

    method NextSlide()
      requires Valid()
      modifies this
      ensures Valid() && direction == 1 && current == NextIndex(old(current))
    {
      direction := 1;
      current := (current + 1) % N;
    }

    method PrevSlide()
      requires Valid()
      modifies this
      ensures Valid() && direction == -1 && current == PrevIndex(old(current))
    {
      direction := -1;
      current := if current == 0 then N - 1 else current - 1;
    }

    /** A click on the side indicator of slide `index`; one exists per slide. */
    method SelectSlide(index: int)
      requires Valid() && InRange(index)
      modifies this
      ensures Valid() && current == index
      ensures direction == IndicatorDirection(index, old(current))
    {
      direction := if index > current then 1 else -1;
      current := index;
    }

    /** A left swipe shows the next slide. */
    method SwipedLeft()
      requires Valid()
      modifies this
      ensures Valid() && direction == 1 && current == NextIndex(old(current))
    {
      NextSlide();
    }

    /** A right swipe shows the previous slide. */
    method SwipedRight()
      requires Valid()
      modifies this
      ensures Valid() && direction == -1 && current == PrevIndex(old(current))
    {
      PrevSlide();
    }
  }

  /** Going forward then back, or back then forward, shows the same slide again;
      clicking the indicator of the slide already shown sets direction -1. */
  method NavigationRoundTrips(c: Carousel)
    requires c.Valid()
    modifies c
    ensures c.Valid() && c.current == old(c.current) && c.direction == -1
  {
    c.NextSlide();
    c.PrevSlide();
    PrevUndoesNext(old(c.current));
    c.PrevSlide();
    c.NextSlide();
    NextUndoesPrev(old(c.current));
    c.SelectSlide(c.current);
  }
}
