/** The wire form of a transition curve. A controller attaches the time an entry is held to the entry after it;
    the accessory attaches it to the entry itself. */
module TransitionWire {
  import opened Wrappers
  import opened TransitionCurve

  datatype WireEntry = WireEntry(adjustment: real, value: real, transitionTime: real, duration: Option<real>)

  class CurveEntry {
    const temperature: real
    const adjustment: real
    const transitionTime: real
    var duration: Option<real>

    constructor (temperature: real, adjustment: real, transitionTime: real)
      ensures View() == Entry(temperature, adjustment, None, transitionTime)
    {
      this.temperature, this.adjustment, this.transitionTime, duration := temperature, adjustment, transitionTime, None;
    }

    function View(): Entry
      reads this
    {
      Entry(temperature, adjustment, duration, transitionTime)
    }
  }

  /** Entry `k` of the stored curve holds for the duration written with entry `k + 1`; the last has none. */
  ghost function StoredEntry(wire: seq<WireEntry>, k: nat): Entry
    requires k < |wire|
  {
    Entry(wire[k].value, wire[k].adjustment,
          if k + 1 < |wire| then wire[k + 1].duration else None,
          wire[k].transitionTime)
  }

  ghost function Stored(wire: seq<WireEntry>): Curve {
    seq(|wire|, k requires 0 <= k < |wire| => StoredEntry(wire, k))
  }

  /** The decoding loop of `handleTransitionControlUpdateTransition`: each round completes the entry of the round
      before, which is already part of the curve. */
  method Store(transitions: seq<WireEntry>) returns (curve: seq<CurveEntry>)
    ensures |curve| == |transitions| && fresh(curve)
    ensures forall k :: 0 <= k < |curve| ==> curve[k].View() == StoredEntry(transitions, k)
  {
    curve := [];
    var previous: CurveEntry? := null;
    for n := 0 to |transitions|
      invariant |curve| == n && fresh(curve)
      invariant previous == if n == 0 then null else curve[n - 1]
      invariant forall j, k :: 0 <= j < k < n ==> curve[j] != curve[k]
      invariant forall k :: 0 <= k < n ==> curve[k].View() == StoredEntry(transitions[..n], k)
    {
      var entry := transitions[n];
      if previous != null {
        previous.duration := entry.duration;
      }
      previous := new CurveEntry(entry.value, entry.adjustment, entry.transitionTime);
      curve := curve + [previous];
      assert transitions[..n + 1][..n] == transitions[..n];
    }
    assert transitions[..|transitions|] == transitions;
  }

  /** The entries `handleTransitionControlReadTransition` answers with. */
  function ReadBack(curve: Curve): seq<WireEntry> {
    seq(|curve|, k requires 0 <= k < |curve| =>
      WireEntry(curve[k].adjustment, curve[k].temperature, curve[k].transitionTime,
                Some(if k == 0 then 0.0 else curve[k - 1].Stay())))
  }

  /** The same entries with the first duration cleared and absent durations written out as zero. */
  ghost function Settled(wire: seq<WireEntry>): seq<WireEntry> {
    seq(|wire|,
        k requires 0 <= k < |wire| => wire[k].(duration := Some(if k == 0 then 0.0 else wire[k].duration.GetOr(0.0))))
  }

  /** Reading back what was stored returns what was written, up to the durations that carry no meaning. */
  lemma ReadBackStored(wire: seq<WireEntry>)
    ensures ReadBack(Stored(wire)) == Settled(wire)
  {
    forall k | 0 <= k < |wire| ensures ReadBack(Stored(wire))[k] == Settled(wire)[k] {
      if k > 0 { assert Stored(wire)[k - 1] == StoredEntry(wire, k - 1); }
    }
  }

  /** A written curve comes back untouched exactly when it spells out every duration and the first one is zero. */
  lemma ReadBackExactIff(wire: seq<WireEntry>)
    ensures ReadBack(Stored(wire)) == wire <==>
            forall k :: 0 <= k < |wire| ==> wire[k].duration.Some? && (k == 0 ==> wire[k].duration == Some(0.0))
  {
    ReadBackStored(wire);
    if ReadBack(Stored(wire)) == wire {
      forall k | 0 <= k < |wire| ensures wire[k].duration.Some? && (k == 0 ==> wire[k].duration == Some(0.0)) {
        assert Settled(wire)[k] == wire[k];
      }
    }
  }

  /** Two curves that differ only in how they write a zero duration. */
  ghost predicate SameSchedule(c: Curve, d: Curve) {
    && |c| == |d|
    && forall k :: 0 <= k < |c| ==>
         && c[k].temperature == d[k].temperature && c[k].adjustment == d[k].adjustment
         && c[k].transitionTime == d[k].transitionTime && c[k].Stay() == d[k].Stay()
  }

  lemma SettledEntry(wire: seq<WireEntry>, settled: seq<WireEntry>, k: nat)
    requires k < |wire| && settled == Settled(wire)
    ensures |settled| == |wire|
    ensures var (e, f) := (StoredEntry(settled, k), StoredEntry(wire, k));
      && e.Stay() == f.Stay() && e.temperature == f.temperature && e.adjustment == f.adjustment
      && e.transitionTime == f.transitionTime
  {
  }

  /** Storing what was read back gives the same schedule again. */
  lemma StoreAgain(wire: seq<WireEntry>)
    ensures SameSchedule(Stored(ReadBack(Stored(wire))), Stored(wire))
  {
    ReadBackStored(wire);
    var settled := Settled(wire);
    var c, d := Stored(settled), Stored(wire);
    forall k | 0 <= k < |wire|
      ensures c[k].Stay() == d[k].Stay() && c[k].temperature == d[k].temperature
      ensures c[k].adjustment == d[k].adjustment && c[k].transitionTime == d[k].transitionTime
    {
      SettledEntry(wire, settled, k);
      assert c[k] == StoredEntry(settled, k) && d[k] == StoredEntry(wire, k);
    }
  }

  lemma {:induction false} SameTimes(c: Curve, d: Curve, i: nat)
    requires SameSchedule(c, d) && i <= |c|
    ensures Start(c, i) == Start(d, i)
  {
    if i > 0 { SameTimes(c, d, i - 1); }
  }

  lemma {:induction false} SameHits(c: Curve, d: Curve, from: nat, offset: real)
    requires SameSchedule(c, d)
    ensures FirstHit(c, from, offset) == FirstHit(d, from, offset)
    decreases |c| - from
  {
    if from + 1 < |c| {
      SameTimes(c, d, from);
      SameTimes(c, d, from + 1);
      SameHits(c, d, from + 1, offset);
    }
  }

  lemma SameLookups(c: Curve, d: Curve, saved: Option<Saved>, offset: real)
    requires SameSchedule(c, d)
    ensures Lookup(c, saved, offset) == Lookup(d, saved, offset)
  {
    SameHits(c, d, 0, offset);
    if saved.Some? && saved.value.curveIndex <= |c| {
      SameTimes(c, d, saved.value.curveIndex);
      SameHits(c, d, saved.value.curveIndex, offset - Drift(c, saved.value));
    }
  }

  lemma SameValues(c: Curve, d: Curve, saved: Option<Saved>, offset: real)
    requires SameSchedule(c, d) && Ramped(c) && Ramped(d)
    ensures SearchedValue(c, saved, offset) == SearchedValue(d, saved, offset)
  {
    SameLookups(c, d, saved, offset);
    match Lookup(c, saved, offset)
    case Some((i, drift)) => SameTimes(c, d, i);
    case None =>
  }

  /** A schedule survives the trip over the wire: every search, with any saved entry, leads to the same value. */
  lemma ScheduleSurvivesReadBack(wire: seq<WireEntry>, saved: Option<Saved>, offset: real)
    requires Ramped(Stored(wire))
    ensures Ramped(Stored(ReadBack(Stored(wire))))
    ensures SearchedValue(Stored(ReadBack(Stored(wire))), saved, offset) == SearchedValue(Stored(wire), saved, offset)
  {
    StoreAgain(wire);
    SameValues(Stored(ReadBack(Stored(wire))), Stored(wire), saved, offset);
  }
}
