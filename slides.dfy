/** The pure meaning of the slide state machine of ImgSlides.js: which index
    requests the `currIndex` setter accepts, how `_autoSlideIndex` picks its
    direction and next request, and how `_updateClasses` moves a marker. The
    class in module `Element` is proved against these functions. */
module Slides {
  import opened Wrappers

  /** The three guards of the `currIndex` setter, in source order: a request
      beyond the last image, before the first, or `undefined` returns early. */
  predicate Accepts(n: nat, request: Option<int>)
  {
    !(request.Some? && request.value > n - 1) &&
    !(request.Some? && request.value < 0) &&
    request.Some?
  }

  /** The index after the setter has run on `request`. */
  function NextIndex(n: nat, current: int, request: Option<int>): (r: int)
  {
    if Accepts(n, request) then request.value else current
  }

  /** The setter accepts exactly the requests inside [0, n-1]; with no images
      it accepts none. */
  lemma AcceptsIff(n: nat, request: Option<int>)
    ensures Accepts(n, request) <==> request.Some? && 0 <= request.value < n
    ensures n == 0 ==> !Accepts(n, request)
  {
  }

  /** Whatever is requested, an index inside [0, n-1] stays inside it. */
  lemma NextIndexInRange(n: nat, current: int, request: Option<int>)
    requires 0 <= current < n
    ensures 0 <= NextIndex(n, current, request) < n
  {
  }

  /** The direction flag `_autoSlideIndex` settles on, read off the index
      before the step: reverse at the last image, then forward at the first. */
  function Direction(n: nat, current: int, reverse: bool): bool
  {
    var r := if current == n - 1 then true else reverse;
    if current == 0 then false else r
  }

  /** The index and the direction flag together. */
  datatype Phase = Phase(index: int, reverse: bool)

  /** One tick of `_autoSlideIndex`: fix the direction, then request the
      neighbour on that side through the setter. */
  function AutoStep(n: nat, p: Phase): (q: Phase)
  {
    var rev := Direction(n, p.index, p.reverse);
    Phase(NextIndex(n, p.index, Some(if rev then p.index - 1 else p.index + 1)), rev)
  }

  /** One tick never leaves [0, n-1]; with one image it stays on image 0. */
  lemma AutoStepInRange(n: nat, p: Phase)
    requires 0 <= p.index < n
    ensures 0 <= AutoStep(n, p).index < n
    ensures n == 1 ==> AutoStep(n, p).index == 0
  {
  }

  /** With two or more images every tick moves by exactly one, backwards
      precisely when the flag is reverse; the flag turns to reverse only at
      the last image and to forward only at the first. */
  lemma AutoStepMovesByOne(n: nat, p: Phase)
    requires n >= 2 && 0 <= p.index < n
    ensures AutoStep(n, p).reverse ==> AutoStep(n, p).index == p.index - 1
    ensures !AutoStep(n, p).reverse ==> AutoStep(n, p).index == p.index + 1
    ensures AutoStep(n, p).reverse && !p.reverse ==> p.index == n - 1
    ensures !AutoStep(n, p).reverse && p.reverse ==> p.index == 0
    ensures p.index == n - 1 ==> AutoStep(n, p).reverse
    ensures p.index == 0 ==> !AutoStep(n, p).reverse
  {
  }

  /** `k` ticks of auto-advance from phase `p`, with no other event between them. */
  function Run(n: nat, p: Phase, k: nat): Phase
    decreases k
  {
    if k == 0 then p else AutoStep(n, Run(n, p, k - 1))
  }

  /** With three images, starting on image 0 going forward, the index runs
      0, 1, 2, 1, 0, 1. */
  lemma ThreeImagesFromZero()
    ensures Run(3, Phase(0, false), 1) == Phase(1, false)
    ensures Run(3, Phase(0, false), 2) == Phase(2, false)
    ensures Run(3, Phase(0, false), 3) == Phase(1, true)
    ensures Run(3, Phase(0, false), 4) == Phase(0, true)
    ensures Run(3, Phase(0, false), 5) == Phase(1, false)
  {
  }

  /** The closed form of auto-advance alone from image 0 over `m + 1` images:
      a triangle wave of period `2 * m` that climbs to the last image and
      returns, the flag reverse on the way down. */
  function Wave(m: nat, k: nat): (p: Phase)
    requires m >= 1
    ensures 0 <= p.index <= m
  {
    var r := k % (2 * m);
    if r == 0 then Phase(0, k > 0)
    else if r <= m then Phase(r, false)
    else Phase(2 * m - r, true)
  }

  /** Division by `d > 0` has one quotient and one remainder. */
  lemma ModUnique(a: int, d: int, q: int, r: int)
    requires d > 0 && 0 <= r < d && a == q * d + r
    ensures a % d == r
  {
    assert (q - a / d) * d == a % d - r;
    MultipleBounds(q - a / d, d);
  }

  lemma MultipleBounds(x: int, d: int)
    requires d > 0
    ensures x >= 1 ==> x * d >= d
    ensures x <= -1 ==> x * d <= -d
  {
    if x >= 1 {
      assert x * d == (x - 1) * d + d;
    } else if x <= -1 {
      assert x * d == (x + 1) * d - d;
    }
  }

  lemma ModSucc(k: nat, d: nat)
    requires d > 0
    ensures (k + 1) % d == if k % d == d - 1 then 0 else k % d + 1
  {
    var q, r := k / d, k % d;
    if r == d - 1 {
      ModUnique(k + 1, d, q + 1, 0);
    } else {
      ModUnique(k + 1, d, q, r + 1);
    }
  }

  /** One tick takes the wave from `k` to `k + 1`. */
  lemma WaveStep(m: nat, k: nat)
    requires m >= 1
    ensures AutoStep(m + 1, Wave(m, k)) == Wave(m, k + 1)
  {
    var r := k % (2 * m);
    ModSucc(k, 2 * m);
    if r == 0 {
      assert (k + 1) % (2 * m) == 1;
    } else if r < m {
      assert (k + 1) % (2 * m) == r + 1;
    } else if r == m {
      assert Wave(m, k) == Phase(m, false);
      assert AutoStep(m + 1, Wave(m, k)) == Phase(m - 1, true);
    } else {
      assert Wave(m, k) == Phase(2 * m - r, true);
    }
  }

  /** Ticking from image 0 going forward over `m + 1 >= 2` images follows the wave. */
  lemma {:induction false} RunIsWave(m: nat, k: nat)
    requires m >= 1
    ensures Run(m + 1, Phase(0, false), k) == Wave(m, k)
  {
    if k > 0 {
      RunIsWave(m, k - 1);
      WaveStep(m, k - 1);
    }
  }

  /** `marks` carries its marker on exactly position `i`. */
  predicate MarksOnly(marks: seq<bool>, i: int)
  {
    forall j :: 0 <= j < |marks| ==> (marks[j] <==> j == i)
  }

  /** `_updateClasses` on one kind of marker: remove it from `from`, then add
      it to `to` (so `from == to` leaves it on). */
  function Moved(marks: seq<bool>, from: int, to: int): (r: seq<bool>)
    requires 0 <= from < |marks| && 0 <= to < |marks|
  {
    marks[from := false][to := true]
  }

  /** A moved marker lands on `to`, leaves `from` unless `from == to`, and
      no other position changes; one marker before means one marker after. */
  lemma MovedMarker(marks: seq<bool>, from: int, to: int)
    requires 0 <= from < |marks| && 0 <= to < |marks|
    ensures |Moved(marks, from, to)| == |marks|
    ensures Moved(marks, from, to)[to]
    ensures from != to ==> !Moved(marks, from, to)[from]
    ensures forall j :: 0 <= j < |marks| && j != from && j != to ==> Moved(marks, from, to)[j] == marks[j]
    ensures MarksOnly(marks, from) ==> MarksOnly(Moved(marks, from, to), to)
  {
  }

  /** Bullets start unmarked: moving the marker onto `to` from an unmarked
      or correctly marked row leaves exactly `to` marked. */
  lemma MovedFromAtMost(marks: seq<bool>, from: int, to: int)
    requires 0 <= from < |marks| && 0 <= to < |marks|
    requires forall j :: 0 <= j < |marks| && marks[j] ==> j == from
    ensures MarksOnly(Moved(marks, from, to), to)
  {
  }
}
