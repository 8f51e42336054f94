/** The `ImgSlides` custom element (ImgSlides.js) as a class: the slide index,
    the direction flag, the playback state, the timer handle, and the "show"
    and "bullet-current" markers of the images and bullets. The host's
    `setInterval`/`clearInterval` act on an explicit map of active interval
    timers, one fresh handle per start, so stacked or leaked timers can be
    counted. */
module Element {
  import opened Wrappers
  import opened Slides

  /** `_intervallID`: never assigned (`undefined`), `null` after a pause, or
      the handle of an interval timer (which may already have been cleared). */
  datatype Handle = Undefined | Null | Id(id: nat)

  const Play: string := "play"
  const Pause: string := "pause"
  const TranstimeAttribute: string := "data-transtime"
  /** The `data-transtime` default, in seconds. */
  const DefaultTranstime: int := 4

  class ImgSlides {
    /** The number of `<img>` children, snapshotted once when connected. */
    const imgCount: nat
    /** Whether `data-bullets` was "true", so that bullets were created. */
    const bulletsCreated: bool

    var currIndex: int
    var slideReverse: bool
    var intervallID: Handle
    /** `data-state`, normally "play" or "pause". */
    var state: string
    /** `data-transtime`, in whole seconds. */
    var transtime: int
    /** The "show" marker of each image. */
    var show: seq<bool>
    /** The "bullet-current" marker of each bullet; empty when no bullets exist. */
    var bulletCurrent: seq<bool>
    /** The active interval timers: handle to period (the `data-transtime` in force when started). */
    var timers: map<nat, int>
    /** The handle the next `setInterval` returns. */
    var nextHandle: nat
    /** The 3-second `setTimeout` that makes the first start is scheduled and has not fired. */
    var startPending: bool

    ghost predicate Valid()
      reads this
    {
      |show| == imgCount &&
      (imgCount == 0 ==> currIndex == 0) &&
      (imgCount > 0 ==> 0 <= currIndex < imgCount && MarksOnly(show, currIndex)) &&
      (if bulletsCreated then |bulletCurrent| == imgCount else bulletCurrent == []) &&
      (forall j :: 0 <= j < |bulletCurrent| && bulletCurrent[j] ==> j == currIndex) &&
      (forall h :: h in timers ==> h < nextHandle) &&
      (intervallID.Id? ==> intervallID.id < nextHandle) &&
      (startPending ==> imgCount > 1)
    }

    /** The element once `connectedCallback` has run: field initialisers,
        the `??=` defaults of `data-state` and `data-transtime`, the image
        snapshot, `_initElements` (image 0 shown; with two or more images the
        first start deferred) and, when `data-bullets` is "true", one
        unmarked bullet per image. */
    constructor (images: nat, stateAttr: Option<string>, transtimeAttr: Option<int>, bulletsAttr: Option<string>)
      ensures Valid()
      ensures imgCount == images && currIndex == 0 && !slideReverse && intervallID == Undefined
      ensures state == stateAttr.GetOr(Play) && transtime == transtimeAttr.GetOr(DefaultTranstime)
      ensures images > 0 ==> MarksOnly(show, 0)
      ensures bulletsCreated == (bulletsAttr == Some("true"))
      ensures forall j :: 0 <= j < |bulletCurrent| ==> !bulletCurrent[j]
      ensures timers == map[] && startPending == (images > 1)
    {
      imgCount := images;
      currIndex := 0;
      slideReverse := false;
      intervallID := Undefined;
      state := stateAttr.GetOr(Play);
      transtime := transtimeAttr.GetOr(DefaultTranstime);
      timers := map[];
      nextHandle := 1;
      var marks := seq(images, j => false);
      if images >= 1 {
        marks := marks[0 := true];
      }
      show := marks;
      startPending := images > 1;
      bulletsCreated := bulletsAttr == Some("true");
      var bullets: seq<bool> := [];
      if bulletsAttr == Some("true") {
        var index := 0;
        while index < images
          invariant 0 <= index <= images
          invariant |bullets| == index
          invariant forall j :: 0 <= j < index ==> !bullets[j]
        {
          bullets := bullets + [false];
          index := index + 1;
        }
      }
      bulletCurrent := bullets;
    }

    /** The `currIndex` getter. */
    function CurrIndex(): (r: int)
      reads this
      requires Valid()
      ensures imgCount > 0 ==> 0 <= r < imgCount && show[r]
      ensures imgCount == 0 ==> r == 0
    {
      currIndex
    }

    /** The number of interval timers currently running. */
    function ActiveTimers(): (r: nat)
      reads this
      ensures r == 0 <==> timers == map[]
    {
      |timers|
    }

    /** The host's `setInterval(this._autoSlideIndex, this.transtime)`. */
    method SetInterval() returns (h: nat)
      requires forall k :: k in timers ==> k < nextHandle
      modifies this`timers, this`nextHandle
      ensures h == old(nextHandle) && h !in old(timers)
      ensures nextHandle == h + 1 && timers == old(timers)[h := transtime]
    {
      h := nextHandle;
      nextHandle := nextHandle + 1;
      timers := timers[h := transtime];
    }

    /** The host's `clearInterval(handle)`: a no-op on `undefined`, `null`
        or a handle that is no longer active. */
    method ClearInterval(handle: Handle)
      modifies this`timers
      ensures timers == if handle.Id? then old(timers) - {handle.id} else old(timers)
    {
      if handle.Id? {
        timers := timers - {handle.id};
      }
    }

    /** `_updateClasses(oldIndex, newIndex)`: "show" moves from the old image
        to the new one; when bullets exist "bullet-current" moves likewise. */
    method UpdateClasses(oldIndex: int, newIndex: int)
      requires 0 <= oldIndex < imgCount && 0 <= newIndex < imgCount && |show| == imgCount
      requires bulletsCreated ==> |bulletCurrent| == imgCount
      modifies this`show, this`bulletCurrent
      ensures show == Moved(old(show), oldIndex, newIndex)
      ensures bulletCurrent == if bulletsCreated then Moved(old(bulletCurrent), oldIndex, newIndex) else old(bulletCurrent)
    {
      show := show[oldIndex := false];
      show := show[newIndex := true];
      if bulletsCreated {
        bulletCurrent := bulletCurrent[oldIndex := false];
        bulletCurrent := bulletCurrent[newIndex := true];
      }
    }

    /** The `currIndex` setter: a request outside [0, imgCount-1], or
        `undefined`, changes nothing; otherwise the index becomes the
        request and the markers move from the old index to it. */
    method SetCurrIndex(newIndex: Option<int>)
      requires Valid()
      modifies this`currIndex, this`show, this`bulletCurrent
      ensures Valid()
      ensures currIndex == NextIndex(imgCount, old(currIndex), newIndex)
      ensures !Accepts(imgCount, newIndex) ==> show == old(show) && bulletCurrent == old(bulletCurrent)
      ensures Accepts(imgCount, newIndex) ==> show == Moved(old(show), old(currIndex), currIndex)
      ensures Accepts(imgCount, newIndex) && bulletsCreated ==>
        bulletCurrent == Moved(old(bulletCurrent), old(currIndex), currIndex) && MarksOnly(bulletCurrent, currIndex)
    {
      var oldIndex := currIndex;
      if newIndex.Some? && newIndex.value > imgCount - 1 { return; }
      if newIndex.Some? && newIndex.value < 0 { return; }
      if newIndex.None? { return; }
      currIndex := newIndex.value;
      UpdateClasses(oldIndex, currIndex);
      MovedMarker(old(show), oldIndex, currIndex);
      if bulletsCreated {
        MovedFromAtMost(old(bulletCurrent), oldIndex, currIndex);
      }
    }

    /** `_autoSlideIndex`, run by every tick of an active interval timer:
        reverse at the last image, forward at the first, then request the
        neighbour on that side. The method itself does not ask for a timer
        to be running; in the browser only a tick of one calls it. */
    method AutoSlideIndex()
      requires Valid()
      modifies this`currIndex, this`slideReverse, this`show, this`bulletCurrent
      ensures Valid()
      ensures Phase(currIndex, slideReverse) == AutoStep(imgCount, Phase(old(currIndex), old(slideReverse)))
      ensures imgCount >= 2 ==> show == Moved(old(show), old(currIndex), currIndex)
      ensures imgCount >= 2 && bulletsCreated ==> MarksOnly(bulletCurrent, currIndex)
      ensures imgCount < 2 ==> currIndex == old(currIndex) && show == old(show) && bulletCurrent == old(bulletCurrent)
    {
      if currIndex == imgCount - 1 {
        slideReverse := true;
      }
      if currIndex == 0 {
        slideReverse := false;
      }
      if slideReverse {
        SetCurrIndex(Some(currIndex - 1));
      } else {
        SetCurrIndex(Some(currIndex + 1));
      }
    }

    /** `_onClickBullet`: request the clicked bullet's own index. */
    method OnClickBullet(index: int)
      requires Valid()
      modifies this`currIndex, this`show, this`bulletCurrent
      ensures Valid()
      ensures currIndex == (if 0 <= index < imgCount then index else old(currIndex))
      ensures 0 <= index < imgCount ==> show == Moved(old(show), old(currIndex), index)
      ensures 0 <= index < imgCount && bulletsCreated ==> MarksOnly(bulletCurrent, index)
      ensures !(0 <= index < imgCount) ==> show == old(show) && bulletCurrent == old(bulletCurrent)
    {
      SetCurrIndex(Some(index));
    }

    /** `_onClickLeft`: request the previous image; nothing happens on the first. */
    method OnClickLeft()
      requires Valid()
      modifies this`currIndex, this`show, this`bulletCurrent
      ensures Valid()
      ensures old(currIndex) > 0 ==> currIndex == old(currIndex) - 1 && show == Moved(old(show), old(currIndex), currIndex)
      ensures old(currIndex) > 0 && bulletsCreated ==> MarksOnly(bulletCurrent, currIndex)
      ensures old(currIndex) == 0 ==> currIndex == 0 && show == old(show) && bulletCurrent == old(bulletCurrent)
    {
      SetCurrIndex(Some(currIndex - 1));
    }

    /** `_onClickRight`: request the next image; nothing happens on the last. */
    method OnClickRight()
      requires Valid()
      modifies this`currIndex, this`show, this`bulletCurrent
      ensures Valid()
      ensures old(currIndex) < imgCount - 1 ==> currIndex == old(currIndex) + 1 && show == Moved(old(show), old(currIndex), currIndex)
      ensures old(currIndex) < imgCount - 1 && bulletsCreated ==> MarksOnly(bulletCurrent, currIndex)
      ensures old(currIndex) >= imgCount - 1 ==> currIndex == old(currIndex) && show == old(show) && bulletCurrent == old(bulletCurrent)
    {
      SetCurrIndex(Some(currIndex + 1));
    }

    /** `_onClickPlay`: the state becomes "play"; a timer starts only when
        the handle is `null`, i.e. after a pause. */
    method OnClickPlay()
      requires Valid()
      modifies this`state, this`intervallID, this`timers, this`nextHandle
      ensures Valid() && state == Play
      ensures old(intervallID) == Null ==>
        intervallID == Id(old(nextHandle)) && timers == old(timers)[old(nextHandle) := transtime]
      ensures old(intervallID) != Null ==>
        intervallID == old(intervallID) && timers == old(timers) && nextHandle == old(nextHandle)
    {
      state := Play;
      if intervallID == Null {
        var h := SetInterval();
        intervallID := Id(h);
      }
    }

    /** `_onClickPause`: the state becomes "pause", the current timer is
        cleared and the handle becomes `null`. */
    method OnClickPause()
      requires Valid()
      modifies this`state, this`intervallID, this`timers
      ensures Valid() && state == Pause && intervallID == Null
      ensures timers == if old(intervallID).Id? then old(timers) - {old(intervallID).id} else old(timers)
    {
      state := Pause;
      ClearInterval(intervallID);
      intervallID := Null;
    }

    /** `_onClickPlayPause`: when playing, pause and clear the timer but keep
        its (now stale) handle; otherwise play and start a timer whatever
        the handle holds. */
    method OnClickPlayPause()
      requires Valid()
      modifies this`state, this`intervallID, this`timers, this`nextHandle
      ensures Valid()
      ensures old(state) == Play ==>
        state == Pause && intervallID == old(intervallID) && nextHandle == old(nextHandle) &&
        timers == (if intervallID.Id? then old(timers) - {intervallID.id} else old(timers))
      ensures old(state) != Play ==>
        state == Play && intervallID == Id(old(nextHandle)) && timers == old(timers)[old(nextHandle) := transtime]
    {
      if state == Play {
        state := Pause;
        ClearInterval(intervallID);
      } else {
        state := Play;
        var h := SetInterval();
        intervallID := Id(h);
      }
    }

    /** `attributeChangedCallback` for the element's one observed attribute:
        a first value (old `null`) or an unchanged one is ignored; a new
        `data-transtime` clears the current timer and starts one with the new
        period, playing or paused. Other names change nothing. */
    method AttributeChangedCallback(name: string, oldValue: Option<int>, newValue: int)
      requires Valid()
      requires name == TranstimeAttribute ==> oldValue.None? || oldValue.value == transtime
      modifies this`transtime, this`intervallID, this`timers, this`nextHandle
      ensures Valid()
      ensures transtime == if name == TranstimeAttribute then newValue else old(transtime)
      ensures name != TranstimeAttribute || oldValue.None? || oldValue == Some(newValue) ==>
        intervallID == old(intervallID) && timers == old(timers) && nextHandle == old(nextHandle)
      ensures name == TranstimeAttribute && oldValue.Some? && oldValue != Some(newValue) ==>
        intervallID == Id(old(nextHandle)) &&
        timers == (if old(intervallID).Id? then old(timers) - {old(intervallID).id} else old(timers))[old(nextHandle) := newValue]
    {
      if name == TranstimeAttribute {
        transtime := newValue;
      }
      if oldValue.None? { return; }
      if oldValue == Some(newValue) { return; }
      if name == TranstimeAttribute {
        ClearInterval(intervallID);
        var h := SetInterval();
        intervallID := Id(h);
      }
    }

    /** The deferred first start (the 3-second `setTimeout` of `_initElements`)
        fires: a timer starts and its handle overwrites `_intervallID`
        without clearing what was there, whatever the state. */
    method FireDeferredStart()
      requires Valid() && startPending
      modifies this`startPending, this`intervallID, this`timers, this`nextHandle
      ensures Valid() && !startPending
      ensures intervallID == Id(old(nextHandle)) && timers == old(timers)[old(nextHandle) := transtime]
    {
      startPending := false;
      var h := SetInterval();
      intervallID := Id(h);
    }
  }
}
