/** Event sequences on the element whose outcome the code as written fixes,
    among them the paths on which more than one interval timer runs or a
    play click starts nothing. */
module Scenarios {
  import opened Wrappers
  import opened Slides
  import opened Element

  /** The handles the element itself still refers to. */
  function Owned(e: ImgSlides): set<nat>
    reads e
  {
    if e.intervallID.Id? then {e.intervallID.id} else {}
  }

  /** Pause, then play twice: the element's own timer is gone and exactly
      one new timer runs beside whatever timers had leaked before; when only
      the element's own timer was running, exactly one timer runs. */
  method PausePlayPlay(e: ImgSlides)
    requires e.Valid()
    modifies e`state, e`intervallID, e`timers, e`nextHandle
    ensures e.Valid() && e.state == Play && e.intervallID.Id?
    ensures e.timers.Keys == (old(e.timers.Keys) - old(Owned(e))) + {e.intervallID.id}
    ensures old(e.timers.Keys) <= old(Owned(e)) ==> e.timers.Keys == {e.intervallID.id} && e.ActiveTimers() == 1
  {
    e.OnClickPause();
    e.OnClickPlay();
    e.OnClickPlay();
  }

  /** A second pause changes nothing the first did not. */
  method PauseTwice(e: ImgSlides)
    requires e.Valid()
    modifies e`state, e`intervallID, e`timers
    ensures e.Valid() && e.state == Pause && e.intervallID == Null
    ensures e.timers == old(e.timers) - old(Owned(e))
  {
    e.OnClickPause();
    ghost var once := e.timers;
    e.OnClickPause();
    assert e.timers == once;
  }

  /** Three images: pause and play inside the 3-second window, then the
      deferred start fires and a second timer runs beside the first. */
  method PausePlayInStartWindow() returns (active: nat, state: string)
    ensures active == 2 && state == Play
  {
    var e := new ImgSlides(3, None, None, None);
    e.OnClickPause();
    e.OnClickPlay();
    e.FireDeferredStart();
    active, state := e.ActiveTimers(), e.state;
  }

  /** Three images: a pause inside the 3-second window does not stop the
      deferred start, so a timer runs while the state says "pause". */
  method PauseInStartWindow() returns (active: nat, state: string)
    ensures active == 1 && state == Pause
  {
    var e := new ImgSlides(3, None, None, None);
    e.OnClickPause();
    e.FireDeferredStart();
    active, state := e.ActiveTimers(), e.state;
  }

  /** A new `data-transtime` while paused still installs a timer, with the
      new period. */
  method TranstimeChangeWhilePaused() returns (active: nat, state: string, periods: set<int>)
    ensures active == 1 && state == Pause && periods == {7}
  {
    var e := new ImgSlides(3, None, None, None);
    e.FireDeferredStart();
    e.OnClickPause();
    e.AttributeChangedCallback(TranstimeAttribute, Some(DefaultTranstime), 7);
    active, state, periods := e.ActiveTimers(), e.state, e.timers.Values;
  }

  /** The play/pause toggle keeps the cleared handle, so a later play click
      starts nothing: the state says "play" and no timer runs. */
  method ToggleThenPlay() returns (active: nat, state: string)
    ensures active == 0 && state == Play
  {
    var e := new ImgSlides(3, None, None, None);
    e.FireDeferredStart();
    e.OnClickPlayPause();
    e.OnClickPlay();
    active, state := e.ActiveTimers(), e.state;
  }

  /** One image: no start is scheduled and the handle stays `undefined`, so
      a play click on the freshly connected element starts nothing. After a
      pause the handle is `null`, and a play click then starts a timer,
      whose ticks leave the index at 0. */
  method SingleImagePlay() returns (activeFresh: nat, activeAfterPausePlay: nat, indexAfterTick: int)
    ensures activeFresh == 0 && activeAfterPausePlay == 1 && indexAfterTick == 0
  {
    var e := new ImgSlides(1, None, None, None);
    e.OnClickPlay();
    activeFresh := e.ActiveTimers();
    e.OnClickPause();
    e.OnClickPlay();
    activeAfterPausePlay := e.ActiveTimers();
    e.AutoSlideIndex();
    indexAfterTick := e.CurrIndex();
  }

  /** No bullet is "bullet-current" until the first transition marks one. */
  method BulletsUnmarkedUntilFirstMove() returns (before: seq<bool>, after: seq<bool>)
    ensures before == [false, false, false]
    ensures after == [false, true, false]
  {
    var e := new ImgSlides(3, None, None, Some("true"));
    before := e.bulletCurrent;
    e.OnClickRight();
    after := e.bulletCurrent;
    assert MarksOnly(after, 1) && |after| == 3;
  }

  /** Five images on image 0, bullet 2 clicked: image 2 and bullet 2 carry
      the markers and nothing else does. */
  method ClickBulletTwo() returns (index: int, shown: seq<bool>, bullets: seq<bool>)
    ensures index == 2
    ensures shown == [false, false, true, false, false]
    ensures bullets == [false, false, true, false, false]
  {
    var e := new ImgSlides(5, None, None, Some("true"));
    e.OnClickBullet(2);
    index, shown, bullets := e.CurrIndex(), e.show, e.bulletCurrent;
  }

  /** Left on the first image and right on the last are no-ops. */
  method ArrowsStopAtEnds() returns (afterLeft: int, afterRights: int)
    ensures afterLeft == 0 && afterRights == 2
  {
    var e := new ImgSlides(3, None, None, None);
    e.OnClickLeft();
    afterLeft := e.CurrIndex();
    e.OnClickRight();
    e.OnClickRight();
    e.OnClickRight();
    afterRights := e.CurrIndex();
  }
}
