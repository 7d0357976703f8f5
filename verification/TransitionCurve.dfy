/** The transition curve of Adaptive Lighting: the cached search for the segment the clock is in, the
    interpolation inside a segment, and the wire form that keeps durations one entry later. */
module TransitionCurve {
  import opened Reals
  import opened Wrappers

  datatype Entry = Entry(temperature: real, adjustment: real, duration: Option<real>, transitionTime: real)
  {
    function Stay(): real { duration.GetOr(0.0) }
  }

  type Curve = seq<Entry>

  /** Durations and transition times are unsigned on the wire; entry 0 only carries an offset. */
  ghost predicate WellFormed(curve: Curve) {
    && (forall k :: 0 <= k < |curve| ==> curve[k].Stay() >= 0.0)
    && (forall k :: 1 <= k < |curve| ==> curve[k].transitionTime >= 0.0)
  }

  /** Every entry after the first is reached by a transition that takes time. */
  ghost predicate Ramped(curve: Curve) {
    && WellFormed(curve)
    && forall k :: 1 <= k < |curve| ==> curve[k].transitionTime > 0.0
  }

  /** The time spent in all entries before `i`. */
  ghost function Start(curve: Curve, i: nat): real
    requires i <= |curve|
  {
    if i == 0 then 0.0 else Start(curve, i - 1) + curve[i - 1].transitionTime + curve[i - 1].Stay()
  }

  /** The moment entry `i` is reached. */
  ghost function Reached(curve: Curve, i: nat): real
    requires i < |curve|
  {
    Start(curve, i) + curve[i].transitionTime
  }

  /** Segment `i` lasts from reaching entry `i` until reaching entry `i + 1`, both ends included. */
  ghost predicate InSegment(curve: Curve, i: nat, offset: real)
    requires i + 1 < |curve|
  {
    Reached(curve, i) <= offset <= Reached(curve, i + 1)
  }

  lemma {:induction false} ReachedMonotone(curve: Curve, i: nat, j: nat)
    requires WellFormed(curve) && i <= j < |curve|
    ensures Reached(curve, i) <= Reached(curve, j)
    ensures Ramped(curve) && i < j ==> Reached(curve, i) < Reached(curve, j)
    decreases j
  {
    if i < j { ReachedMonotone(curve, i, j - 1); }
  }

  // ---------------------------------------------------------------- what a search finds

  /** The first segment from `from` on that contains `offset`. */
  ghost function FirstHit(curve: Curve, from: nat, offset: real): (hit: Option<nat>)
    ensures hit.Some? ==> from <= hit.value && hit.value + 1 < |curve| && InSegment(curve, hit.value, offset)
    decreases |curve| - from
  {
    if from + 1 >= |curve| then None
    else if InSegment(curve, from, offset) then Some(from)
    else FirstHit(curve, from + 1, offset)
  }

  /** No segment from `from` up to the hit contains the offset, and none at all if there is no hit. */
  lemma {:induction false} FirstHitIsFirst(curve: Curve, from: nat, offset: real, k: nat)
    requires from <= k && k + 1 < |curve|
    ensures match FirstHit(curve, from, offset)
            case Some(i) => k < i ==> !InSegment(curve, k, offset)
            case None => !InSegment(curve, k, offset)
    decreases k - from
  {
    if from < k { FirstHitIsFirst(curve, from + 1, offset, k); }
  }

  datatype Saved = Saved(curveIndex: nat, lowerBoundTimeOffset: real)

  datatype Point = Point(lowerBoundTimeOffset: real, transitionOffset: real, lowerBound: Entry, upperBound: Entry)

  /** What the saved entry believes about the time before its index, relative to this curve. */
  ghost function Drift(curve: Curve, saved: Saved): real
    requires saved.curveIndex <= |curve|
  {
    saved.lowerBoundTimeOffset - Start(curve, saved.curveIndex)
  }

  /** The saved entry lies past the offset, so the search notices and starts again from the beginning. */
  ghost predicate Restarts(curve: Curve, saved: Option<Saved>, offset: real) {
    && saved.Some? && saved.value.curveIndex + 1 < |curve|
    && offset < saved.value.lowerBoundTimeOffset + curve[saved.value.curveIndex].transitionTime
  }

  /** The segment a search finds and the drift it was found with. A search that trusts its saved entry is a search
      for the offset corrected by the drift; a saved index past the end finds nothing. */
  ghost function Lookup(curve: Curve, saved: Option<Saved>, offset: real): (r: Option<(nat, real)>)
    ensures r.Some? ==> r.value.0 + 1 < |curve| && InSegment(curve, r.value.0, offset - r.value.1)
  {
    var trusted := saved.Some? && !Restarts(curve, saved, offset) && saved.value.curveIndex + 1 < |curve|;
    var drift := if trusted then Drift(curve, saved.value) else 0.0;
    var from := if saved.Some? && !Restarts(curve, saved, offset) then saved.value.curveIndex else 0;
    match FirstHit(curve, from, offset - drift)
    case Some(i) => Some((i, drift))
    case None => None
  }

  ghost function PointAt(curve: Curve, i: nat, drift: real, offset: real): Point
    requires i + 1 < |curve|
  {
    var reached := Reached(curve, i) + drift;
    Point(reached, offset - reached, curve[i], curve[i + 1])
  }

  ghost function PointOf(curve: Curve, found: Option<(nat, real)>, offset: real): Option<Point>
    requires found.Some? ==> found.value.0 + 1 < |curve|
  {
    if found.Some? then Some(PointAt(curve, found.value.0, found.value.1, offset)) else None
  }

  ghost function SavedOf(curve: Curve, found: Option<(nat, real)>): Option<Saved>
    requires found.Some? ==> found.value.0 + 1 < |curve|
  {
    if found.Some? then Some(Saved(found.value.0, Start(curve, found.value.0) + found.value.1)) else None
  }

  /** The running transition schedule and the last hit of the search in it. */
  class Schedule {
    var curve: Curve
    var last: Option<Saved>

    constructor (curve: Curve)
      ensures this.curve == curve && last == None
    {
      this.curve, last := curve, None;
    }

    /** `getCurrentAdaptiveLightingTransitionPoint`, with the offset into the schedule as its argument. It restarts
        at most once, because the saved entry is dropped before the second try. */
    method CurrentPoint(offset: real) returns (point: Option<Point>)
      modifies this`last
      ensures point == PointOf(curve, old(Lookup(curve, last, offset)), offset)
      ensures last == SavedOf(curve, old(Lookup(curve, last, offset)))
      decreases if last.Some? then 1 else 0
    {
      var curve := this.curve;
      var i := if last.Some? then last.value.curveIndex else 0;
      var lowerBoundTimeOffset := if last.Some? then last.value.lowerBoundTimeOffset else 0.0;
      var hit := false;
      ghost var from := i;
      ghost var drift := if i < |curve| then lowerBoundTimeOffset - Start(curve, i) else 0.0;

      while i + 1 < |curve|
        invariant !hit && from <= i && last == old(last)
        invariant from < |curve| ==> i < |curve| && lowerBoundTimeOffset == Start(curve, i) + drift
        invariant last.Some? && i > from
          ==> i < |curve| && offset - drift > Reached(curve, i) && !Restarts(curve, last, offset)
        invariant FirstHit(curve, from, offset - drift) == FirstHit(curve, i, offset - drift)
        decreases |curve| - i
      {
        var lower, upper := curve[i], curve[i + 1];
        var stay := lower.duration.GetOr(0.0);
        lowerBoundTimeOffset := lowerBoundTimeOffset + lower.transitionTime;
        if offset >= lowerBoundTimeOffset {
          if offset <= lowerBoundTimeOffset + stay + upper.transitionTime {
            hit := true;
            break;
          }
        } else if last.Some? {
          last := None;
          point := CurrentPoint(offset);
          return;
        }
        lowerBoundTimeOffset := lowerBoundTimeOffset + stay;
        i := i + 1;
      }

      if !hit {
        last := None;
        return None;
      }
      assert old(Lookup(curve, last, offset)) == Some((i, drift));
      last := Some(Saved(i, lowerBoundTimeOffset - curve[i].transitionTime));
      point := Some(Point(lowerBoundTimeOffset, offset - lowerBoundTimeOffset, curve[i], curve[i + 1]));
    }
  }

  // ---------------------------------------------------------------- cached search against a search from zero

  /** A saved entry that tells the truth about this curve. */
  ghost predicate Sound(curve: Curve, saved: Option<Saved>) {
    saved.Some? ==>
      && saved.value.curveIndex + 1 < |curve|
      && saved.value.lowerBoundTimeOffset == Start(curve, saved.value.curveIndex)
  }

  /** From a segment reached by now, a search succeeds exactly when the schedule is not over. */
  lemma {:induction false} HitIff(curve: Curve, from: nat, offset: real)
    requires WellFormed(curve) && from + 1 < |curve|
    requires Reached(curve, from) <= offset
    ensures FirstHit(curve, from, offset).Some? <==> offset <= Reached(curve, |curve| - 1)
    decreases |curve| - from
  {
    ReachedMonotone(curve, from + 1, |curve| - 1);
    if !InSegment(curve, from, offset) && from + 2 < |curve| {
      HitIff(curve, from + 1, offset);
    }
  }

  /** A search from zero finds a segment exactly between reaching the first and reaching the last entry. */
  lemma FreshSearchIff(curve: Curve, offset: real)
    requires WellFormed(curve)
    ensures Lookup(curve, None, offset).Some?
      <==> |curve| >= 2 && Reached(curve, 0) <= offset <= Reached(curve, |curve| - 1)
  {
    if |curve| >= 2 {
      match FirstHit(curve, 0, offset)
      case Some(i) => ReachedMonotone(curve, 0, i); HitIff(curve, 0, offset);
      case None => if Reached(curve, 0) <= offset { HitIff(curve, 0, offset); }
    }
  }

  /** The same for a search that trusts its saved entry: its schedule is shifted by the drift. */
  lemma CachedSearchIff(curve: Curve, saved: Saved, offset: real)
    requires WellFormed(curve) && saved.curveIndex + 1 < |curve| && !Restarts(curve, Some(saved), offset)
    ensures Lookup(curve, Some(saved), offset).Some? <==> offset <= Reached(curve, |curve| - 1) + Drift(curve, saved)
  {
    HitIff(curve, saved.curveIndex, offset - Drift(curve, saved));
  }

  ghost predicate FoundAlike(curve: Curve, saved: Saved, offset: real) {
    Lookup(curve, Some(saved), offset).Some? <==> Lookup(curve, None, offset).Some?
  }

  /** A saved entry can be trusted at every moment exactly when it is sound, unless there is no segment to find.
      Renewing a curve keeps the saved entry of the old one. */
  lemma CacheTrustedIff(curve: Curve, saved: Saved)
    requires WellFormed(curve)
    ensures (forall offset: real :: FoundAlike(curve, saved, offset)) <==> |curve| < 2 || Sound(curve, Some(saved))
  {
    forall offset: real | |curve| < 2 || Sound(curve, Some(saved)) ensures FoundAlike(curve, saved, offset) {
      SoundCacheFinds(curve, saved, offset);
    }
    if |curve| >= 2 && !Sound(curve, Some(saved)) {
      var end := Reached(curve, |curve| - 1);
      ReachedMonotone(curve, 0, |curve| - 1);
      FreshSearchIff(curve, end);
      if saved.curveIndex + 1 < |curve| {
        // the real schedule and the drifted one end at different moments
        var probe := if Drift(curve, saved) < 0.0 then end else end + Drift(curve, saved);
        ReachedMonotone(curve, saved.curveIndex, |curve| - 1);
        FreshSearchIff(curve, probe);
        CachedSearchIff(curve, saved, probe);
        assert !FoundAlike(curve, saved, probe);
      } else {
        assert !FoundAlike(curve, saved, end);
      }
    }
  }

  lemma SoundCacheFinds(curve: Curve, saved: Saved, offset: real)
    requires WellFormed(curve) && (|curve| < 2 || Sound(curve, Some(saved)))
    ensures FoundAlike(curve, saved, offset)
  {
    if |curve| >= 2 && !Restarts(curve, Some(saved), offset) {
      ReachedMonotone(curve, 0, saved.curveIndex);
      FreshSearchIff(curve, offset);
      CachedSearchIff(curve, saved, offset);
    }
  }

  /** A sound cache, or a stale one that lies past the offset, leaves a sound cache behind. */
  lemma SearchLeavesSoundCache(curve: Curve, saved: Option<Saved>, offset: real)
    requires Sound(curve, saved) || Restarts(curve, saved, offset)
    ensures Sound(curve, SavedOf(curve, Lookup(curve, saved, offset)))
  {
  }

  // ---------------------------------------------------------------- the interpolated value

  datatype Value = Value(temperature: real, adjustment: real)

  function Blend(a: real, b: real, share: real): real {
    a + (b - a) * share
  }

  /** The value `scheduleNextUpdate` computes for a point; `duration` counts only when it is set and not zero. */
  function Interpolate(point: Point): Value
    requires point.upperBound.transitionTime != 0.0
  {
    var lower, upper := point.lowerBound, point.upperBound;
    if lower.Stay() != 0.0 && point.transitionOffset <= lower.Stay() then Value(lower.temperature, lower.adjustment)
    else
      var share := (point.transitionOffset - lower.Stay()) / upper.transitionTime;
      Value(Blend(lower.temperature, upper.temperature, share), Blend(lower.adjustment, upper.adjustment, share))
  }

  ghost function ValueAt(curve: Curve, i: nat, offset: real): Value
    requires i + 1 < |curve| && curve[i + 1].transitionTime > 0.0
  {
    Interpolate(PointAt(curve, i, 0.0, offset))
  }

  lemma PartOf(whole: real, share: real)
    requires whole >= 0.0 && 0.0 <= share <= 1.0
    ensures 0.0 <= whole * share <= whole
  {
    ProductNonNegative(whole, share);
    ProductNonNegative(whole, 1.0 - share);
  }

  lemma ProductNonNegative(x: real, y: real)
    requires x >= 0.0 && y >= 0.0
    ensures x * y >= 0.0
  {
  }

  lemma BlendBetween(a: real, b: real, share: real)
    requires 0.0 <= share <= 1.0
    ensures Min(a, b) <= Blend(a, b, share) <= Max(a, b)
  {
    if a <= b {
      PartOf(b - a, share);
    } else {
      PartOf(a - b, share);
      assert (b - a) * share == -((a - b) * share);
    }
  }

  lemma ShareBounds(x: real, t: real)
    requires t > 0.0
    ensures 0.0 <= x <= t ==> 0.0 <= x / t <= 1.0
    ensures t / t == 1.0 && 0.0 / t == 0.0
  {
  }

  /** Inside a segment the value stays between the two neighbouring entries. */
  lemma ValueBetweenNeighbours(curve: Curve, i: nat, offset: real)
    requires Ramped(curve) && i + 1 < |curve| && InSegment(curve, i, offset)
    ensures var (v, lower, upper) := (ValueAt(curve, i, offset), curve[i], curve[i + 1]);
      && Min(lower.temperature, upper.temperature) <= v.temperature <= Max(lower.temperature, upper.temperature)
      && Min(lower.adjustment, upper.adjustment) <= v.adjustment <= Max(lower.adjustment, upper.adjustment)
  {
    var lower, upper := curve[i], curve[i + 1];
    var within := offset - Reached(curve, i) - lower.Stay();
    ShareBounds(within, upper.transitionTime);
    if within >= 0.0 {
      var share := within / upper.transitionTime;
      BlendBetween(lower.temperature, upper.temperature, share);
      BlendBetween(lower.adjustment, upper.adjustment, share);
    }
  }

  /** At the end of a segment its value is the next entry, at its start the entry itself. */
  lemma ValueAtEnds(curve: Curve, i: nat)
    requires Ramped(curve) && i + 1 < |curve|
    ensures ValueAt(curve, i, Reached(curve, i)) == Value(curve[i].temperature, curve[i].adjustment)
    ensures ValueAt(curve, i, Reached(curve, i + 1)) == Value(curve[i + 1].temperature, curve[i + 1].adjustment)
  {
    ShareBounds(0.0, curve[i + 1].transitionTime);
  }

  /** While entry `i` is held, the value is that of the entry. */
  lemma ValueDuringStay(curve: Curve, i: nat, offset: real)
    requires Ramped(curve) && i + 1 < |curve|
    requires Reached(curve, i) <= offset <= Reached(curve, i) + curve[i].Stay()
    ensures ValueAt(curve, i, offset) == Value(curve[i].temperature, curve[i].adjustment)
  {
    ShareBounds(0.0, curve[i + 1].transitionTime);
  }

  /** The change from `a` to `b` in the time from `x` to `y` has the same rate as that from `b` to `c` in the time from
      `y` to `z`. */
  ghost predicate SameRate(a: real, b: real, c: real, x: real, y: real, z: real) {
    (b - a) * (z - y) == (c - b) * (y - x)
  }

  lemma BlendEvenly(a: real, b: real, from: real, time: real, x: real, y: real, z: real)
    requires time > 0.0
    ensures SameRate(Blend(a, b, (x - from) / time), Blend(a, b, (y - from) / time), Blend(a, b, (z - from) / time),
                     x, y, z)
  {
    var (p, q, r) := ((x - from) / time, (y - from) / time, (z - from) / time);
    var d := b - a;
    assert x - from == p * time && y - from == q * time && z - from == r * time;
    assert Blend(a, b, q) - Blend(a, b, p) == d * (q - p);
    assert Blend(a, b, r) - Blend(a, b, q) == d * (r - q);
    assert z - y == (r - q) * time && y - x == (q - p) * time;
    EqualProducts(d, q - p, r - q, time);
  }

  lemma EqualProducts(d: real, m: real, n: real, time: real)
    ensures (d * m) * (n * time) == (d * n) * (m * time)
  {
  }

  /** The part of segment `i` after the stay. */
  ghost predicate OnRamp(curve: Curve, i: nat, offset: real)
    requires i + 1 < |curve|
  {
    Reached(curve, i) + curve[i].Stay() <= offset <= Reached(curve, i + 1)
  }

  /** After that, the value moves to the next entry evenly: equal times make equal steps. */
  lemma RampIsEven(curve: Curve, i: nat, x: real, y: real, z: real)
    requires Ramped(curve) && i + 1 < |curve|
    requires OnRamp(curve, i, x) && OnRamp(curve, i, y) && OnRamp(curve, i, z)
    ensures var (a, b, c) := (ValueAt(curve, i, x), ValueAt(curve, i, y), ValueAt(curve, i, z));
      && SameRate(a.temperature, b.temperature, c.temperature, x, y, z)
      && SameRate(a.adjustment, b.adjustment, c.adjustment, x, y, z)
  {
    var (lower, upper, from) := (curve[i], curve[i + 1], Reached(curve, i) + curve[i].Stay());
    var time := upper.transitionTime;
    RampBlends(curve, i, x);
    RampBlends(curve, i, y);
    RampBlends(curve, i, z);
    BlendEvenly(lower.temperature, upper.temperature, from, time, x, y, z);
    BlendEvenly(lower.adjustment, upper.adjustment, from, time, x, y, z);
  }

  lemma RampBlends(curve: Curve, i: nat, offset: real)
    requires Ramped(curve) && i + 1 < |curve| && OnRamp(curve, i, offset)
    ensures var (lower, upper) := (curve[i], curve[i + 1]);
      var share := (offset - (Reached(curve, i) + lower.Stay())) / upper.transitionTime;
      ValueAt(curve, i, offset) == Value(Blend(lower.temperature, upper.temperature, share),
                                         Blend(lower.adjustment, upper.adjustment, share))
  {
    ShareBounds(0.0, curve[i + 1].transitionTime);
  }

  /** Two segments that both contain the offset meet there, and give the same value. */
  lemma ValueUnique(curve: Curve, i: nat, j: nat, offset: real)
    requires Ramped(curve) && i <= j && j + 1 < |curve|
    requires InSegment(curve, i, offset) && InSegment(curve, j, offset)
    ensures j <= i + 1 && ValueAt(curve, i, offset) == ValueAt(curve, j, offset)
  {
    if i < j {
      ReachedMonotone(curve, i + 1, j);
      ValueAtEnds(curve, i);
      ValueAtEnds(curve, j);
    }
  }

  /** The value a search leads to. */
  ghost function SearchedValue(curve: Curve, saved: Option<Saved>, offset: real): Option<Value>
    requires Ramped(curve)
  {
    match Lookup(curve, saved, offset)
    case Some((i, drift)) => Some(Interpolate(PointAt(curve, i, drift, offset)))
    case None => None
  }

  /** With a sound cache, or a stale one lying past the offset, the cached search and a search from zero lead to the
      same value at every offset, even where they settle on different segments. */
  lemma CachedSearchAgrees(curve: Curve, saved: Option<Saved>, offset: real)
    requires Ramped(curve) && (Sound(curve, saved) || Restarts(curve, saved, offset))
    ensures SearchedValue(curve, saved, offset) == SearchedValue(curve, None, offset)
  {
    if saved.Some? && !Restarts(curve, saved, offset) {
      SoundCacheFinds(curve, saved.value, offset);
      match (Lookup(curve, saved, offset), Lookup(curve, None, offset))
      case (Some((j, _)), Some((i, _))) =>
        if j < i { ValueUnique(curve, j, i, offset); } else { ValueUnique(curve, i, j, offset); }
      case _ =>
    }
  }

  /** A saved entry leads to the values of a search from zero at every moment exactly when it is sound, unless there is
      no segment to find. */
  lemma CacheTrustedForValuesIff(curve: Curve, saved: Saved)
    requires Ramped(curve)
    ensures (forall offset: real :: SearchedValue(curve, Some(saved), offset) == SearchedValue(curve, None, offset))
            <==> |curve| < 2 || Sound(curve, Some(saved))
  {
    if |curve| < 2 || Sound(curve, Some(saved)) {
      forall offset: real ensures SearchedValue(curve, Some(saved), offset) == SearchedValue(curve, None, offset) {
        if |curve| >= 2 { CachedSearchAgrees(curve, Some(saved), offset); }
      }
    } else {
      CacheTrustedIff(curve, saved);
      var offset: real :| !FoundAlike(curve, saved, offset);
      assert SearchedValue(curve, Some(saved), offset) != SearchedValue(curve, None, offset);
    }
  }
}
