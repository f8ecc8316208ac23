/** The review carousel of js/main.js (`initReviewsAnimation`): the closure
    state, the autoplay tick with its deferred wrap back to the first card, the
    mouse and touch drag handlers and the resize handler. The measured card
    width, the pointer coordinates and the firing of every timer are
    parameters or calls made by the environment. */
module Carousel {

  function Abs(x: int): nat {
    if x < 0 then -x else x
  }

  /** The index a drag release settles on, shared by `handleMouseUp` and
      `handleTouchEnd`: a drag longer than a third of a card steps one card back
      (drag to the right) or forward (drag to the left), but never below the
      first card nor past the last real card. */
  function SnapIndex(index: int, moved: int, cardWidth: int, totalCards: int): (r: int)
    ensures 3 * Abs(moved) <= cardWidth ==> r == index
    ensures r == index - 1 <==> 3 * Abs(moved) > cardWidth && moved > 0 && index > 0
    ensures r == index + 1 <==> 3 * Abs(moved) > cardWidth && moved < 0 && index < totalCards - 1
    ensures r == index - 1 || r == index || r == index + 1
    ensures 0 <= index ==> 0 <= r
    ensures r <= index || r < totalCards
  {
    if 3 * Abs(moved) > cardWidth then
      if moved > 0 && index > 0 then index - 1
      else if moved < 0 && index < totalCards - 1 then index + 1
      else index
    else index
  }

  /** A drag never takes the index out of the real cards when it starts inside them. */
  lemma SnapStaysInside(index: int, moved: int, cardWidth: int, totalCards: int)
    requires 0 <= index < totalCards
    ensures 0 <= SnapIndex(index, moved, cardWidth, totalCards) < totalCards
  {
  }

  /** Cards 300 wide, starting on card 2: a drag of 150 to the left moves to
      card 3, a drag of 50 snaps back to card 2. */
  lemma SnapScenario(totalCards: int)
    requires 4 <= totalCards
    ensures SnapIndex(2, -150, 300, totalCards) == 3
    ensures SnapIndex(2, -50, 300, totalCards) == 2
  {
  }

  /** Every variable of the closure, and the timers that are pending. */
  datatype Snapshot = Snapshot(
    index: int,
    isDragging: bool,
    startX: int,
    currentX: int,
    initialTranslate: int,
    touchStartX: int,
    touchInitialTranslate: int,
    trackX: int,            // the translateX of the track's transform
    slideInterval: bool,    // `slideInterval` holds an interval handle
    liveIntervals: nat,     // autoplay intervals registered and not cleared
    pendingWraps: nat,      // deferred resets scheduled by nextSlide, not yet run
    pendingResumes: nat)    // startSlide timeouts scheduled, not yet run

  class ReviewCarousel {
    /** `cards.length - 2`: the number of real cards, without the two clones. */
    const totalCards: int
    var index: int
    var isDragging: bool
    var startX: int
    var currentX: int
    var initialTranslate: int
    var touchStartX: int
    var touchInitialTranslate: int
    var trackX: int
    var slideInterval: bool
    var liveIntervals: nat
    var pendingWraps: nat
    var pendingResumes: nat

    function State(): Snapshot
      reads this
    {
      Snapshot(index, isDragging, startX, currentX, initialTranslate, touchStartX,
               touchInitialTranslate, trackX, slideInterval, liveIntervals, pendingWraps, pendingResumes)
    }

    /** The index is never negative, and past the real cards only while a
        wrap is pending for each step beyond them; at most one autoplay
        interval is registered, the one `slideInterval` holds. */
    predicate Valid()
      reads this
    {
      && 0 <= index
      && (0 < totalCards ==> index < totalCards + pendingWraps)
      && liveIntervals == (if slideInterval then 1 else 0)
    }

    /** The closure's state once the guard on the track, the cards and the
        reduced-motion preference has passed; the first `startSlide` is
        scheduled 100 ms later. The track starts untranslated. */
    constructor (cardCount: nat)
      requires 0 < cardCount
      ensures Valid() && totalCards == cardCount - 2
      ensures State() == Snapshot(0, false, 0, 0, 0, 0, 0, 0, false, 0, 0, 1)
    {
      totalCards := cardCount - 2;
      index, isDragging := 0, false;
      startX, currentX, initialTranslate := 0, 0, 0;
      touchStartX, touchInitialTranslate, trackX := 0, 0, 0;
      slideInterval, liveIntervals := false, 0;
      pendingWraps, pendingResumes := 0, 1;
    }

    /** `stopSlide`, also the carousel's mouseenter handler. */
    method StopSlide()
      requires Valid()
      modifies this
      ensures Valid()
      ensures State() == old(State()).(slideInterval := false, liveIntervals := 0)
    {
      if slideInterval {
        liveIntervals := liveIntervals - 1;
        slideInterval := false;
      }
    }

    /** `startSlide`, also the carousel's mouseleave handler: the old interval is
        cleared before the new one is registered, so exactly one stays. */
    method StartSlide()
      requires Valid()
      modifies this
      ensures Valid() && liveIntervals == 1
      ensures State() == old(State()).(slideInterval := true, liveIntervals := 1)
    {
      StopSlide();
      liveIntervals := liveIntervals + 1;
      slideInterval := true;
    }

    /** A scheduled `setTimeout(startSlide, ...)` fires. */
    method ResumeSlide()
      requires Valid() && 0 < pendingResumes
      modifies this
      ensures Valid()
      ensures State() == old(State()).(slideInterval := true, liveIntervals := 1, pendingResumes := old(pendingResumes) - 1)
    {
      pendingResumes := pendingResumes - 1;
      StartSlide();
    }

    /** `nextSlide`, fired by the autoplay interval: nothing while dragging;
        otherwise one card forward, and a wrap is scheduled once the index
        reaches the clones. */
    method NextSlide(cardWidth: int)
      requires Valid() && slideInterval && 0 < cardWidth
      modifies this
      ensures Valid()
      ensures old(isDragging) ==> State() == old(State())
      ensures !old(isDragging) ==>
        State() == old(State()).(
          index := old(index) + 1,
          trackX := -(old(index) + 1) * cardWidth,
          initialTranslate := -(old(index) + 1) * cardWidth,
          pendingWraps := if old(index) + 1 >= totalCards then old(pendingWraps) + 1 else old(pendingWraps))
    {
      if isDragging {
        return;
      }
      index := index + 1;
      var translateX := -index * cardWidth;
      trackX := translateX;
      initialTranslate := translateX;
      if index >= totalCards {
        pendingWraps := pendingWraps + 1;
      }
    }

    /** The deferred reset scheduled by `nextSlide` fires: back to the first
        card with the track untranslated. */
    method WrapToStart()
      requires Valid() && 0 < pendingWraps
      modifies this
      ensures Valid() && index == 0
      ensures State() == old(State()).(index := 0, trackX := 0, initialTranslate := 0, pendingWraps := old(pendingWraps) - 1)
    {
      index := 0;
      trackX := 0;
      initialTranslate := 0;
      pendingWraps := pendingWraps - 1;
    }

    /** `handleMouseDown`: starts a drag from the current card and stops
        autoplay. `currentX` keeps the value of the previous drag. */
    method MouseDown(clientX: int, cardWidth: int)
      requires Valid() && 0 < cardWidth
      modifies this
      ensures Valid()
      ensures State() == old(State()).(
        isDragging := true,
        startX := clientX,
        initialTranslate := -old(index) * cardWidth,
        slideInterval := false,
        liveIntervals := 0)
    {
      isDragging := true;
      startX := clientX;
      initialTranslate := -index * cardWidth;
      StopSlide();
    }

    /** `handleMouseMove`: the track follows the pointer one to one. */
    method MouseMove(clientX: int)
      requires Valid()
      modifies this
      ensures Valid()
      ensures !old(isDragging) ==> State() == old(State())
      ensures old(isDragging) ==>
        State() == old(State()).(currentX := clientX, trackX := old(initialTranslate) + (clientX - old(startX)))
    {
      if !isDragging {
        return;
      }
      currentX := clientX;
      trackX := initialTranslate + (currentX - startX);
    }

    /** `handleMouseUp`: ends a drag, settles on the snapped card and
        schedules autoplay to resume after 2000 ms. */
    method MouseUp(cardWidth: int)
      requires Valid() && 0 < cardWidth
      modifies this
      ensures Valid()
      ensures !old(isDragging) ==> State() == old(State())
      ensures old(isDragging) ==>
        var settled := SnapIndex(old(index), old(currentX) - old(startX), cardWidth, totalCards);
        State() == old(State()).(
          index := settled,
          isDragging := false,
          trackX := -settled * cardWidth,
          initialTranslate := -settled * cardWidth,
          pendingResumes := old(pendingResumes) + 1)
    {
      if !isDragging {
        return;
      }
      isDragging := false;
      var moved := currentX - startX;
      index := SnapIndex(index, moved, cardWidth, totalCards);
      var translateX := -index * cardWidth;
      trackX := translateX;
      initialTranslate := translateX;
      pendingResumes := pendingResumes + 1;
    }

    /** `handleTouchStart`: starts a drag from the current card and stops autoplay. */
    method TouchStart(clientX: int, cardWidth: int)
      requires Valid() && 0 < cardWidth
      modifies this
      ensures Valid()
      ensures State() == old(State()).(
        isDragging := true,
        touchStartX := clientX,
        touchInitialTranslate := -old(index) * cardWidth,
        slideInterval := false,
        liveIntervals := 0)
    {
      isDragging := true;
      touchStartX := clientX;
      touchInitialTranslate := -index * cardWidth;
      StopSlide();
    }

    /** `handleTouchMove`: the track follows the finger one to one. */
    method TouchMove(clientX: int)
      requires Valid()
      modifies this
      ensures Valid()
      ensures !old(isDragging) ==> State() == old(State())
      ensures old(isDragging) ==>
        State() == old(State()).(trackX := old(touchInitialTranslate) + (clientX - old(touchStartX)))
    {
      if !isDragging {
        return;
      }
      trackX := touchInitialTranslate + (clientX - touchStartX);
    }

    /** `handleTouchEnd`: ends a drag, settles on the snapped card and
        schedules autoplay to resume after 3000 ms. Unlike the mouse handler it
        leaves `initialTranslate` as it was. */
    method TouchEnd(clientX: int, cardWidth: int)
      requires Valid() && 0 < cardWidth
      modifies this
      ensures Valid()
      ensures !old(isDragging) ==> State() == old(State())
      ensures old(isDragging) ==>
        var settled := SnapIndex(old(index), clientX - old(touchStartX), cardWidth, totalCards);
        State() == old(State()).(
          index := settled,
          isDragging := false,
          trackX := -settled * cardWidth,
          pendingResumes := old(pendingResumes) + 1)
    {
      if !isDragging {
        return;
      }
      isDragging := false;
      var moved := clientX - touchStartX;
      index := SnapIndex(index, moved, cardWidth, totalCards);
      trackX := -index * cardWidth;
      pendingResumes := pendingResumes + 1;
    }

    /** The debounced resize handler: the track is moved to the current card
        for the new card width; the index does not change. */
    method Resize(cardWidth: int)
      requires Valid() && 0 < cardWidth
      modifies this
      ensures Valid()
      ensures State() == old(State()).(trackX := -old(index) * cardWidth, initialTranslate := -old(index) * cardWidth)
    {
      var translateX := -index * cardWidth;
      trackX := translateX;
      initialTranslate := translateX;
    }
  }

  /** A press and release without a move in between reuses the `currentX` of
      the previous drag: here it moves the carousel although the pointer never
      moved while the button was down. */
  method StaleReleaseScenario() returns (afterDrag: int, afterClick: int)
    ensures afterDrag == 1 && afterClick == 2
  {
    var c := new ReviewCarousel(7);
    c.MouseDown(500, 300);
    c.MouseMove(100);
    c.MouseUp(300);
    afterDrag := c.index;
    c.MouseDown(400, 300);
    c.MouseUp(300);
    afterClick := c.index;
  }
}
