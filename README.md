# ImgSlides slide state machine in Dafny

A model of the `ImgSlides` custom element (ImgSlides.js). The element cycles through its `<img>` children.
It advances on an interval timer, reversing direction at either end. Bullet clicks, left/right arrows and
play/pause controls also drive it, and it keeps the "show" marker of the images and the "bullet-current"
marker of the bullets in step with the current index.

Modules:

- `Wrappers`: `Option`, standing for JavaScript's `undefined`/`null`.
- `Strings`: `includes` and first-occurrence `replace` on strings (`IndexOf`, `Contains`, `ReplaceFirst`).
- `Controls`: which control buttons `data-controls` selects, and the left/right mirroring of the `data-arrows` glyph name.
- `Slides`: the pure meaning of the index setter, the direction rule, one auto-advance tick and a marker move.
  It also holds the closed form of auto-advance: a triangle wave of period `2 * (N - 1)`.
- `Element`: the class `ImgSlides` with the element's fields (`currIndex`, `slideReverse`, `intervallID`,
  `state`, `transtime`, the marker sequences). Its event handlers are methods proved against `Slides`.
  `setInterval`/`clearInterval` act on an explicit map of active timers (handle to period), with a fresh
  handle per start. The 3-second deferred first start is an event (`FireDeferredStart`) the environment fires.
- `Scenarios`: event sequences whose outcome the code fixes. Some of them are paths that leave two timers
  running, or none while the state says "play".

The code is modelled as written. In particular:

- the deferred start overwrites `_intervallID` without clearing it, so a pause and a play inside the
  first 3 seconds leave two timers running (ImgSlides.js:128);
- a `data-transtime` change restarts the timer even when paused (ImgSlides.js:77-78);
- `_onClickPlay` only starts a timer when the handle is `null`, and the play/pause toggle clears the timer
  without nulling the handle (ImgSlides.js:187, 201);
- no bullet is "bullet-current" until the first transition (ImgSlides.js:102-104, 247-250);
- `data-controls="true"` gives the play and pause buttons but no arrows, because line 168 only tests
  `includes('arrows')`;
- `data-state` and `data-transtime` keep a value the host already set; "play" and 4 are only defaults.

## Model

| member | source | states |
|---|---|---|
| `Strings.IndexOf` | ImgSlides.js:170-171 | the result is the first position where the pattern occurs, and None exactly when it occurs nowhere |
| `Strings.ReplaceFirst` | ImgSlides.js:170-171 | `replace` with a string pattern: unchanged when the pattern is absent, else the first occurrence alone is replaced and the rest is kept |
| `Strings.ReplaceFirstUndo` | ImgSlides.js:170-171 | replacing the replacement back restores the original string when the inserted text is its first occurrence |
| `Controls.LeftName` | ImgSlides.js:170 | a name with neither "Right" nor "right" is its own left-arrow name; `MirrorLeftPointing`, `MirrorRightPointing`, `MirrorLowerLeftPointing`, `MirrorLowerRightPointing`, `MirrorRoundTrip` and `DefaultArrowNames` give its value on names that say Left/Right once, capitalised or in lower case |
| `Controls.RightName` | ImgSlides.js:171 | a name with neither "Left" nor "left" is its own right-arrow name; `MirrorLeftPointing`, `MirrorRightPointing`, `MirrorLowerLeftPointing`, `MirrorLowerRightPointing`, `MirrorRoundTrip` and `DefaultArrowNames` give its value on names that say Left/Right once, capitalised or in lower case |
| `Controls.MirrorLeftPointing` | ImgSlides.js:170-171 | for `pre + "Left" + post` (no 'R', 'h', 'f' around, no 'L' before) the left name is the name itself and the right name is `pre + "Right" + post` |
| `Controls.MirrorRoundTrip` | ImgSlides.js:170-171 | mirroring a left name to the right and back yields the original name, under the stated non-interference conditions |
| `Controls.DefaultArrowNames` | ImgSlides.js:95 | the default `singleLeftPointingAngleQuotationMark` gives itself on the left and `singleRightPointingAngleQuotationMark` on the right |
| `Controls.MirrorRightPointing` | ImgSlides.js:170-171 | for `pre + "Right" + post` (no 'L', 'h', 'f' around, no 'R' before) the left name says "Left" in that place and the right name is the name itself |
| `Controls.MirrorLowerLeftPointing` | ImgSlides.js:170-171 | for `pre + "left" + post` (no 'L', 'R', 'h' around, no 'l' before) the left name is the name itself and the second replace of line 171 gives `pre + "right" + post` |
| `Controls.MirrorLowerRightPointing` | ImgSlides.js:170-171 | for `pre + "right" + post` (no 'L', 'R', 'f' around, no 'r' before) the second replace of line 170 gives `pre + "left" + post` and the right name is the name itself |
| `Controls.LowerLeftArrowName` | ImgSlides.js:171 | `leftwardsArrow` mirrors to `rightwardsArrow` |
| `Controls.LowerRightArrowName` | ImgSlides.js:170 | `rightwardsArrow` mirrors to `leftwardsArrow` |
| `Controls.SelectControls` | ImgSlides.js:105-168 | the controls choice; its partners prove that every space-separated list of play, pause and arrows gets exactly the listed buttons (`WordsSelectTheirButtons`), that an absent attribute throws and "false"/"undefined" give no panel (`AbsentOrDisabled`), that "true" gives play and pause without arrows (`TrueOmitsArrows`), and that each single word selects its own button (`SingleKinds`) |
| `Controls.JoinIncludes` | ImgSlides.js:156-168 | in a space-separated list of the words play, pause and arrows, `includes` finds a word exactly when it is listed |
| `Controls.JoinNotKeyword` | ImgSlides.js:105 | such a list is never "undefined", "false" or "true" |
| `Controls.WordsSelectTheirButtons` | ImgSlides.js:105-168 | for every space-separated list of the words play, pause and arrows, the panel has the play, pause and arrow buttons exactly when their word is listed |
| `Controls.AbsentOrDisabled` | ImgSlides.js:105-107 | an absent `data-controls` throws a TypeError at line 156; "false" and "undefined" give no panel |
| `Controls.TrueOmitsArrows` | ImgSlides.js:156-168 | `data-controls="true"` yields play and pause but no arrows |
| `Controls.SingleKinds` | ImgSlides.js:156-168 | "play", "pause" and "arrows" each select exactly their own kind of button |
| `Slides.AcceptsIff` | ImgSlides.js:52-54 | the setter accepts a request iff it is defined and in [0, N-1]; with N = 0 it accepts none |
| `Slides.NextIndexInRange` | ImgSlides.js:52-56 | whatever is requested, an in-range index stays in range |
| `Slides.AutoStepInRange` | ImgSlides.js:229-240 | one tick keeps the index in [0, N-1]; with N = 1 it stays 0 |
| `Slides.AutoStepMovesByOne` | ImgSlides.js:229-240 | with N >= 2 a tick moves by exactly one, back iff the flag is reverse; the flag becomes reverse at N-1, forward at 0, and changes nowhere else |
| `Slides.ThreeImagesFromZero` | ImgSlides.js:221-241 | with three images from image 0 the index runs 0, 1, 2, 1, 0, 1 |
| `Slides.RunIsWave` | ImgSlides.js:221-241 | k ticks from image 0 going forward over m+1 >= 2 images land on the triangle wave of period 2m, with the flag reverse on the way down |
| `Slides.MovedMarker` | ImgSlides.js:243-245 | a moved marker lands on the new index and leaves the old one, nothing else changes, and exactly one marker before means exactly one after, also when old equals new |
| `Slides.MovedFromAtMost` | ImgSlides.js:247-250 | from an unmarked bullet row or one marked at the old index, exactly the new bullet is marked afterwards |
| `Element.ImgSlides.constructor` | ImgSlides.js:85-131 | after connecting: index 0, forward, handle undefined, state and transtime defaulted, image 0 alone shown, bullets unmarked, no timer, the deferred start pending iff N > 1 |
| `Element.ImgSlides.CurrIndex` | ImgSlides.js:62-64 | the index is in [0, N-1] and its image is shown when N > 0 |
| `Element.ImgSlides.ActiveTimers` | ImgSlides.js:40 | the number of running interval timers, zero iff none |
| `Element.ImgSlides.SetInterval` | ImgSlides.js:78 | a fresh handle is added to the active timers with the current `data-transtime` period |
| `Element.ImgSlides.ClearInterval` | ImgSlides.js:77 | clearing removes the given handle and is a no-op on undefined, null or a stale handle |
| `Element.ImgSlides.UpdateClasses` | ImgSlides.js:243-251 | "show" moves from old to new; "bullet-current" moves likewise only when bullets were created |
| `Element.ImgSlides.SetCurrIndex` | ImgSlides.js:47-60 | a rejected request leaves index and all markers unchanged; an accepted one sets the index and moves both markers, after which exactly the new bullet is current |
| `Element.ImgSlides.AutoSlideIndex` | ImgSlides.js:221-241 | the new index and flag are one `AutoStep`; with N >= 2 the markers move, with N < 2 nothing changes |
| `Element.ImgSlides.OnClickBullet` | ImgSlides.js:209-211 | the clicked bullet's index becomes current when in range, else nothing changes |
| `Element.ImgSlides.OnClickLeft` | ImgSlides.js:213-215 | moves one image back, a no-op on the first image |
| `Element.ImgSlides.OnClickRight` | ImgSlides.js:217-219 | moves one image forward, a no-op on the last image |
| `Element.ImgSlides.OnClickPlay` | ImgSlides.js:185-190 | the state becomes "play"; a timer starts iff the handle was null, otherwise timers and handle are unchanged |
| `Element.ImgSlides.OnClickPause` | ImgSlides.js:192-196 | the state becomes "pause", the handle's timer is removed and the handle becomes null |
| `Element.ImgSlides.OnClickPlayPause` | ImgSlides.js:198-207 | from "play": pause and clear the timer but keep the stale handle; otherwise play and start a new timer without clearing the old |
| `Element.ImgSlides.AttributeChangedCallback` | ImgSlides.js:70-83 | the attribute holds the new value; an old value of null or an unchanged value is ignored; otherwise the current timer is replaced by exactly one with the new period, whatever the state |
| `Element.ImgSlides.FireDeferredStart` | ImgSlides.js:124-130 | the deferred start adds a timer and overwrites the handle without clearing the previous one |
| `Scenarios.PausePlayPlay` | ImgSlides.js:185-196 | pause, play, play removes the element's own timer and leaves exactly one new timer beside any leaked ones; with no leaked timer exactly one timer runs |
| `Scenarios.PauseTwice` | ImgSlides.js:192-196 | a second pause changes nothing the first did not; index, markers and handle counter are outside its frame |
| `Scenarios.PausePlayInStartWindow` | ImgSlides.js:124-130 | pause and play inside the 3-second window end with two timers running |
| `Scenarios.PauseInStartWindow` | ImgSlides.js:124-130 | a pause inside the 3-second window still ends with a timer running while the state is "pause" |
| `Scenarios.TranstimeChangeWhilePaused` | ImgSlides.js:70-79 | a new `data-transtime` while paused leaves one timer running with the new period |
| `Scenarios.ToggleThenPlay` | ImgSlides.js:185-202 | after the toggle pauses, a play click starts nothing: the state is "play" and no timer runs |
| `Scenarios.SingleImagePlay` | ImgSlides.js:113-117 | with one image a play click on the freshly connected element starts nothing; after a pause a play click starts one timer, and its tick leaves the index at 0 |
| `Scenarios.BulletsUnmarkedUntilFirstMove` | ImgSlides.js:247-250 | bullets start unmarked and the first move marks exactly the new one |
| `Scenarios.ClickBulletTwo` | ImgSlides.js:209-211 | five images on image 0, bullet 2 clicked: image 2 and bullet 2 alone carry the markers |
| `Scenarios.ArrowsStopAtEnds` | ImgSlides.js:213-219 | left on the first image and right past the last image change nothing |

## Left out

- Rendering: creating the bullet and control elements and the `Button` class from another module (ImgSlides.js:1, 136-149, 153-182); only the marker sequences are kept. The bullet creation loop is kept as a loop appending one unmarked marker per image.
- The transition-unset style hack (ImgSlides.js:114-116, 122, 127): presentation only.
- Real time: the 3000 ms delay and the interval ticks are events the environment fires (`FireDeferredStart`, `AutoSlideIndex`); periods are recorded, never waited for. `AutoSlideIndex` does not itself ask for a running timer.
- The `transtime` getter's `Number(...) * 1000` (ImgSlides.js:44): a timer records the `data-transtime` value in whole seconds.
- `Number(...)` conversions of `data-index` and of the index, and `Number.isInteger` (ImgSlides.js:63, 210, 248-249): indices are integers, so non-integer and NaN indices are not modelled.
- Attribute values are integers, not strings: "4" and "4.0" count as the same value here, and removing `data-transtime` (a NaN period) is not modelled.
- Custom-element plumbing: `observedAttributes`, the `??=` defaults of the CSS attributes, `querySelector` lookups, `console` output and the unused `dictionary` (ImgSlides.js:24-35, 89-90, 111).
- Calls of `attributeChangedCallback` before the element is connected, and a second `connectedCallback` when the element is moved, are not modelled.
- `_onClickPlayPause` is not attached to any control in the source; it is modelled as an event like the others.
- `Controls.LeftName` and `Controls.RightName`: their values are proved for names that say the direction once (capitalised or lower case) with the stated letters absent around it, and the round trip under the stated conditions; names mixing several direction words are not covered.
