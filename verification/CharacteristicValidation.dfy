/** How `validateUserInput` adjusts the values of plugins, how `validateClientSuppliedValue` checks those of
    controllers, and what the iterator over valid values yields. */
module CharacteristicValidation {
  import opened Reals
  import opened Wrappers
  import opened CharacteristicValues
  import opened StepGrid

  // ---------------------------------------------------------------- numbers

  function Low(p: Props): real
    requires Numeric(p.format)
  {
    MaxWithUndefined(p.minValue, Some(LowerBound(p.format))).value
  }

  function High(p: Props): real
    requires Numeric(p.format)
  {
    MinWithUndefined(p.maxValue, Some(UpperBound(p.format))).value
  }

  /** Integer formats always have a step of at least one; a float only has the step that is declared. */
  function StepOf(p: Props): Option<real> {
    if p.format.Float? then p.minStep else MaxWithUndefined(p.minStep, Some(1.0))
  }

  predicate Stepped(p: Props) {
    StepOf(p).Some? && StepOf(p).value > 0.0
  }

  function Base(p: Props): real {
    p.minValue.GetOr(0.0)
  }

  /** The highest value after the maximum was floored to the grid. */
  function Top(p: Props): real
    requires Numeric(p.format)
  {
    if Stepped(p) then FloorTo(StepOf(p).value, Base(p), High(p)) else High(p)
  }

  function Nearest(p: Props, x: real): real {
    if Stepped(p) then RoundTo(StepOf(p).value, Base(p), x) else x
  }

  /** Rounded to the step, then raised to the minimum, then lowered to the floored maximum. */
  function Adjusted(p: Props, x: real): real
    requires Numeric(p.format)
  {
    Min(Max(Nearest(p, x), Low(p)), Top(p))
  }

  ghost predicate InRange(p: Props, x: real)
    requires Numeric(p.format)
  {
    Low(p) <= x <= High(p)
  }

  ghost predicate OnStep(p: Props, x: real) {
    Stepped(p) ==> OnGrid(StepOf(p).value, Base(p), x)
  }

  lemma TopIsBelow(p: Props)
    requires Numeric(p.format)
    ensures Top(p) <= High(p) && OnStep(p, Top(p)) && Nearest(p, Top(p)) == Top(p)
  {
    if Stepped(p) {
      FloorToNear(StepOf(p).value, Base(p), High(p));
      Rounded(StepOf(p).value, Base(p), High(p));
      Rounded(StepOf(p).value, Base(p), Top(p));
    }
  }

  /** Adjusting is monotone, under any properties. */
  lemma AdjustedMonotone(p: Props, x: real, y: real)
    requires Numeric(p.format) && x <= y
    ensures Adjusted(p, x) <= Adjusted(p, y)
  {
    if Stepped(p) { RoundToMonotone(StepOf(p).value, Base(p), x, y); }
  }

  /** Every adjusted value is in range exactly when flooring leaves the maximum above the minimum. */
  lemma AdjustedInRangeIff(p: Props)
    requires Numeric(p.format)
    ensures (forall x :: InRange(p, Adjusted(p, x))) <==> Low(p) <= Top(p)
  {
    TopIsBelow(p);
    if Low(p) > Top(p) { assert !InRange(p, Adjusted(p, 0.0)); }
  }

  /** A value far below the minimum, whose adjustment is the minimum itself. */
  lemma BelowGoesToLow(p: Props) returns (x: real)
    requires Numeric(p.format) && Low(p) <= Top(p)
    ensures Nearest(p, x) < Low(p) && Adjusted(p, x) == Low(p)
  {
    x := Low(p) - 1.0;
    if Stepped(p) {
      var step := StepOf(p).value;
      x := Low(p) - step;
      RoundToNear(step, Base(p), x);
    }
  }

  /** Adjusting a second time changes nothing exactly when rounding does not move the minimum up (or when the floored
      maximum lies below the minimum, where every value becomes that maximum). */
  lemma AdjustedIdempotentIff(p: Props)
    requires Numeric(p.format)
    ensures (forall x :: Adjusted(p, Adjusted(p, x)) == Adjusted(p, x))
      <==> Top(p) < Low(p) || Nearest(p, Low(p)) <= Low(p)
  {
    TopIsBelow(p);
    if Top(p) < Low(p) || Nearest(p, Low(p)) <= Low(p) {
      forall x ensures Adjusted(p, Adjusted(p, x)) == Adjusted(p, x) {
        if Stepped(p) {
          Rounded(StepOf(p).value, Base(p), x);
          Rounded(StepOf(p).value, Base(p), Nearest(p, x));
        }
      }
    } else {
      var x := BelowGoesToLow(p);
      var step := StepOf(p).value;
      RoundToNear(step, Base(p), Low(p));
      Rounded(step, Base(p), Low(p));
      var k :| Nearest(p, Low(p)) == Grid(step, Base(p), k);
      var n :| Top(p) == Grid(step, Base(p), n);
      if n < k { GridApart(step, Base(p), n, k); }
      assert Adjusted(p, Adjusted(p, x)) != Adjusted(p, x);
    }
  }

  /** Every adjusted value lies on the grid exactly when the minimum does (or can never be reached). */
  lemma AdjustedOnStepIff(p: Props)
    requires Numeric(p.format) && Stepped(p)
    ensures (forall x :: OnStep(p, Adjusted(p, x))) <==> Top(p) < Low(p) || OnStep(p, Low(p))
  {
    TopIsBelow(p);
    if Top(p) < Low(p) || OnStep(p, Low(p)) {
      forall x ensures OnStep(p, Adjusted(p, x)) { Rounded(StepOf(p).value, Base(p), x); }
    } else {
      var x := BelowGoesToLow(p);
      assert !OnStep(p, Adjusted(p, x));
    }
  }

  /** What the grid is based on: a declared minimum, or the zero an unsigned format starts at. */
  predicate Based(p: Props) {
    p.minValue.Some? || Unsigned(p.format)
  }

  lemma BasedGrid(p: Props)
    requires Ordered(p) && Based(p)
    ensures Base(p) == Low(p) <= Top(p) && OnStep(p, Low(p)) && Nearest(p, Low(p)) == Low(p)
  {
    if Stepped(p) {
      var step := StepOf(p).value;
      TimesQuotient(step, 0.0);
      assert Grid(step, Base(p), 0) == Base(p);
      FloorToIff(step, Base(p), High(p), 0);
      Rounded(step, Base(p), Low(p));
    }
  }

  /** With ordered bounds and a declared minimum or an unsigned format, an adjusted value is in range and on the grid,
      and adjusting it again changes nothing. */
  lemma AdjustedIsProper(p: Props, x: real)
    requires Ordered(p) && Based(p)
    ensures InRange(p, Adjusted(p, x)) && OnStep(p, Adjusted(p, x)) && Adjusted(p, Adjusted(p, x)) == Adjusted(p, x)
  {
    BasedGrid(p);
    AdjustedInRangeIff(p);
    AdjustedIdempotentIff(p);
    if Stepped(p) { AdjustedOnStepIff(p); }
  }

  /** Without a declared minimum a signed format can leave the grid and be moved again by a second adjustment. */
  lemma SignedWithoutMinimum() returns (p: Props, x: real)
    ensures Ordered(p) && !Based(p) && Adjusted(p, Adjusted(p, x)) != Adjusted(p, x)
  {
    p := Props(Int, None, None, Some(7.0), None, None, None);
    assert Grid(7.0, 0.0, -306783378) == -2147483646.0 && Grid(7.0, 0.0, 306783378) == 2147483646.0;
    RoundToIff(7.0, 0.0, Low(p), -306783378);
    FloorToIff(7.0, 0.0, High(p), 306783378);
    AdjustedIdempotentIff(p);
    x :| Adjusted(p, Adjusted(p, x)) != Adjusted(p, x);
  }

  /** The values adjusting leaves alone are those in range and on the grid. */
  lemma FixedIff(p: Props, v: real)
    requires Ordered(p) && Based(p)
    ensures Adjusted(p, v) == v <==> InRange(p, v) && OnStep(p, v)
  {
    if Adjusted(p, v) == v {
      AdjustedIsProper(p, v);
    }
    if InRange(p, v) && OnStep(p, v) && Stepped(p) {
      var step := StepOf(p).value;
      Rounded(step, Base(p), v);
      assert Nearest(p, v) == v;
      var k :| v == Grid(step, Base(p), k);
      FloorToIff(step, Base(p), High(p), k);
      assert v <= Top(p);
    }
  }

  /** The range in terms of the declared bounds and those of the format. */
  lemma InRangeIff(p: Props, x: real)
    requires Numeric(p.format)
    ensures InRange(p, x) <==>
      && LowerBound(p.format) <= x <= UpperBound(p.format)
      && (p.minValue.Some? ==> p.minValue.value <= x)
      && (p.maxValue.Some? ==> x <= p.maxValue.value)
  {
  }

  function Distance(x: real, y: real): real {
    if x < y then y - x else x - y
  }

  ghost predicate Allowed(p: Props, y: real)
    requires Numeric(p.format)
  {
    InRange(p, y) && OnStep(p, y)
  }

  /** `r` is the allowed value nearest to `x`, and the higher one of two. */
  ghost predicate Closest(p: Props, x: real, r: real)
    requires Numeric(p.format)
  {
    && Allowed(p, r)
    && forall y :: Allowed(p, y) && y != r ==>
         Distance(r, x) < Distance(y, x) || (Distance(r, x) == Distance(y, x) && y < r)
  }

  /** Adjusting a number goes to the allowed value nearest to it. */
  lemma AdjustedIsClosest(p: Props, x: real)
    requires Ordered(p) && Based(p)
    ensures Closest(p, x, Adjusted(p, x))
  {
    AdjustedIsProper(p, x);
    BasedGrid(p);
    if Stepped(p) {
      forall y | Allowed(p, y) && y != Adjusted(p, x)
        ensures Distance(Adjusted(p, x), x) < Distance(y, x)
                || (Distance(Adjusted(p, x), x) == Distance(y, x) && y < Adjusted(p, x))
      {
        AdjustedIsCloser(p, x, y);
      }
    }
  }

  lemma AdjustedIsCloser(p: Props, x: real, y: real)
    requires Ordered(p) && Based(p) && Stepped(p) && Allowed(p, y) && y != Adjusted(p, x)
    ensures var r := Adjusted(p, x);
      Distance(r, x) < Distance(y, x) || (Distance(r, x) == Distance(y, x) && y < r)
  {
    var (step, base) := (StepOf(p).value, Base(p));
    BasedGrid(p);
    TopIsBelow(p);
    var k :| y == Grid(step, base, k);
    FloorToIff(step, base, High(p), k);
    RoundToNear(step, base, x);
    Rounded(step, base, x);
    Apart(step, base, Nearest(p, x), y);
    Apart(step, base, Nearest(p, x), Low(p));
    Apart(step, base, Nearest(p, x), Top(p));
  }

  lemma Apart(step: real, base: real, a: real, b: real)
    requires step > 0.0 && OnGrid(step, base, a) && OnGrid(step, base, b)
    ensures a < b ==> a + step <= b
    ensures b < a ==> b + step <= a
  {
    var j :| a == Grid(step, base, j);
    var k :| b == Grid(step, base, k);
    if j < k { GridApart(step, base, j, k); } else if k < j { GridApart(step, base, k, j); }
  }

  // ---------------------------------------------------------------- the iterator over valid values

  datatype Span = Span(min: real, max: real, step: real)

  function SpanOf(p: Props): Option<Span>
    requires Numeric(p.format)
  {
    if p.validValueRanges.Some? then Some(Span(p.validValueRanges.value.0, p.validValueRanges.value.1, 1.0))
    else if p.minValue.Some? && p.maxValue.Some? then
      Some(Span(p.minValue.value, p.maxValue.value, p.minStep.GetOr(1.0)))
    else if Unsigned(p.format) then Some(Span(0.0, UpperBound(p.format), 1.0))
    else None
  }

  /** The loop comes to an end. */
  predicate Ends(s: Span) {
    s.step > 0.0 || s.min > s.max
  }

  ghost predicate Yields(s: Span, v: real) {
    s.min <= s.max && exists k: nat :: v == Grid(s.step, s.min, k) && v <= s.max
  }

  /** `ValidValuesIterable`; properties it has no strategy for make it throw. */
  method ValidValues(p: Props) returns (result: Result<seq<real>, ()>)
    requires Numeric(p.format)
    requires p.validValues.None? && SpanOf(p).Some? ==> Ends(SpanOf(p).value)
    ensures p.validValues.Some? ==> result == Ok(p.validValues.value)
    ensures p.validValues.None? ==> (result.Ok? <==> SpanOf(p).Some?)
    ensures p.validValues.None? && result.Ok? ==>
      && (forall v :: v in result.value <==> Yields(SpanOf(p).value, v))
      && (forall j, k :: 0 <= j < k < |result.value| ==> result.value[j] < result.value[k])
  {
    if p.validValues.Some? {
      return Ok(p.validValues.value);
    }
    var min, max, step := 0.0, 0.0, 1.0;
    if p.validValueRanges.Some? {
      min, max := p.validValueRanges.value.0, p.validValueRanges.value.1;
    } else if p.minValue.Some? && p.maxValue.Some? {
      min, max := p.minValue.value, p.maxValue.value;
      if p.minStep.Some? {
        step := p.minStep.value;
      }
    } else if Unsigned(p.format) {
      max := UpperBound(p.format);
    } else {
      return Err(());
    }
    var values := EachStep(min, max, step);
    result := Ok(values);
  }

  method EachStep(min: real, max: real, step: real) returns (values: seq<real>)
    requires Ends(Span(min, max, step))
    ensures forall v :: v in values <==> Yields(Span(min, max, step), v)
    ensures forall j, k :: 0 <= j < k < |values| ==> values[j] < values[k]
  {
    values := [];
    var i := min;
    assert Grid(step, min, 0) == min;
    while i <= max
      invariant i == Grid(step, min, |values|)
      invariant forall k :: 0 <= k < |values| ==> values[k] == Grid(step, min, k) && values[k] <= max
      invariant |values| > 0 ==> step > 0.0
      decreases if step > 0.0 && i <= max then ((max - i) / step).Floor + 1 else 0
    {
      ghost var before := i;
      GridNext(step, min, |values|);
      LessLeft(max, i, step);
      values := values + [i];
      i := i + step;
    }
    forall v | Yields(Span(min, max, step), v) ensures v in values {
      var k: nat :| v == Grid(step, min, k) && v <= max;
      if k >= |values| { GridOrder(step, min, |values|, k); }
      assert values[k] == v;
    }
    forall j, k | 0 <= j < k < |values| ensures values[j] < values[k] {
      GridOrder(step, min, j, k);
    }
  }

  lemma LessLeft(max: real, i: real, step: real)
    requires step > 0.0 && i <= max
    ensures ((max - (i + step)) / step).Floor < ((max - i) / step).Floor && ((max - i) / step).Floor >= 0
  {
    var (before, after) := ((max - i) / step, (max - (i + step)) / step);
    TimesQuotient(step, max - i);
    TimesQuotient(step, max - (i + step));
    TimesSum(step, after, 1.0);
    TimesOrder(step, before, after + 1.0);
    TimesOrder(step, after + 1.0, before);
    TimesOrder(step, 0.0, before);
    TimesSum(step, 0.0, 0.0);
  }

  /** With a step that is not positive the loop would go on for ever from a minimum below the maximum. */
  lemma EndlessWithoutStep(s: Span, k: nat)
    requires !Ends(s)
    ensures Grid(s.step, s.min, k) <= s.max
  {
  }

  /** When both bounds are declared and there are no lists: the iterator and the adjustment use the same step, or a
      range too small for the difference to show. */
  predicate StepsAgree(p: Props)
    requires p.minValue.Some? && p.maxValue.Some?
  {
    if p.format.Float? then p.minStep.Some? || p.minValue == p.maxValue
    else p.minStep.None? || p.minStep.value >= 1.0 || p.minValue.value + p.minStep.value > p.maxValue.value
  }

  lemma YieldsIff(p: Props, v: real)
    requires Ordered(p) && p.minValue.Some? && p.maxValue.Some? && p.validValueRanges.None? && Stepped(p)
    ensures Yields(Span(p.minValue.value, p.maxValue.value, StepOf(p).value), v) <==> Adjusted(p, v) == v
  {
    FixedIff(p, v);
    var step, min := StepOf(p).value, p.minValue.value;
    TimesQuotient(step, 0.0);
    if InRange(p, v) && OnGrid(step, min, v) {
      var k :| v == Grid(step, min, k);
      GridOrder(step, min, k, 0);
      assert k >= 0;
    }
    if Yields(Span(min, p.maxValue.value, step), v) {
      var k: nat :| v == Grid(step, min, k) && v <= p.maxValue.value;
      GridOrder(step, min, 0, k);
    }
  }

  /** A value strictly inside the first step and inside the bounds is not yielded by the larger step. */
  lemma BetweenSteps(s: Span, v: real)
    requires s.step > 0.0 && s.min < v < s.min + s.step
    ensures !Yields(s, v) && !OnGrid(s.step, s.min, v)
  {
    TimesQuotient(s.step, 0.0);
    if k :| v == Grid(s.step, s.min, k) {
      GridNext(s.step, s.min, 0);
      GridOrder(s.step, s.min, 0, k);
      GridOrder(s.step, s.min, k, 1);
    }
  }

  /** With both bounds declared, a step that ends the loop and no lists, the iterator yields exactly the values that
      adjusting leaves alone if and only if the steps agree. */
  lemma EnumerationExactIff(p: Props)
    requires Ordered(p) && p.minValue.Some? && p.maxValue.Some? && p.validValueRanges.None?
    requires p.minStep.Some? ==> p.minStep.value > 0.0
    ensures (forall v :: Yields(SpanOf(p).value, v) <==> Adjusted(p, v) == v) <==> StepsAgree(p)
  {
    var s := SpanOf(p).value;
    if StepOf(p) == Some(s.step) {
      forall v ensures Yields(s, v) <==> Adjusted(p, v) == v { YieldsIff(p, v); }
    } else if StepsAgree(p) {
      forall v ensures Yields(s, v) <==> Adjusted(p, v) == v { SmallRange(p, v); }
    } else {
      var v := StepsDiffer(p);
    }
  }

  lemma SmallRange(p: Props, v: real)
    requires Ordered(p) && p.minValue.Some? && p.maxValue.Some? && p.validValueRanges.None?
    requires p.minStep.Some? ==> p.minStep.value > 0.0
    requires StepsAgree(p) && StepOf(p) != Some(SpanOf(p).value.step)
    ensures Yields(SpanOf(p).value, v) <==> v == p.minValue.value
    ensures Adjusted(p, v) == v <==> v == p.minValue.value
  {
    var s := SpanOf(p).value;
    TimesQuotient(s.step, 0.0);
    GridNext(s.step, s.min, 0);
    assert Grid(s.step, s.min, 0) == s.min;
    if Yields(s, v) {
      var k: nat :| v == Grid(s.step, s.min, k) && v <= s.max;
      if k >= 1 { GridOrder(s.step, s.min, 1, k); }
    }
    FixedIff(p, v);
    BasedGrid(p);
    if Adjusted(p, v) == v && v != s.min {
      if Stepped(p) { BetweenSteps(Span(s.min, s.max, 1.0), v); }
    }
  }

  lemma StepsDiffer(p: Props) returns (v: real)
    requires Ordered(p) && p.minValue.Some? && p.maxValue.Some? && p.validValueRanges.None?
    requires p.minStep.Some? ==> p.minStep.value > 0.0
    requires !StepsAgree(p)
    ensures Yields(SpanOf(p).value, v) <==> Adjusted(p, v) != v
  {
    var s := SpanOf(p).value;
    if p.format.Float? {
      v := (s.min + Min(s.max, s.min + 1.0)) / 2.0;
      BetweenSteps(s, v);
      FixedIff(p, v);
    } else {
      v := s.min + s.step;
      TimesQuotient(s.step, 0.0);
      GridNext(s.step, s.min, 0);
      assert v == Grid(s.step, s.min, 1);
      BetweenSteps(Span(s.min, s.max, 1.0), v);
      FixedIff(p, v);
    }
  }

  /** Without a range and without both bounds, the iterator of an unsigned format yields every whole number of the
      format. It agrees with the adjustment if and only if the bound that is declared, if any, is the one of the format
      and there is no step but one: it ignores both. */
  lemma UnsignedEnumerationExactIff(p: Props)
    requires Ordered(p) && Unsigned(p.format)
    requires !(p.minValue.Some? && p.maxValue.Some?) && p.validValueRanges.None?
    ensures (forall v :: Yields(SpanOf(p).value, v) <==> Adjusted(p, v) == v)
            <==> Low(p) == 0.0 && High(p) == UpperBound(p.format) && StepOf(p) == Some(1.0)
  {
    if Low(p) == 0.0 && High(p) == UpperBound(p.format) && StepOf(p) == Some(1.0) {
      forall v ensures Yields(SpanOf(p).value, v) <==> Adjusted(p, v) == v { WholeNumbers(p, v); }
    } else {
      var v := BoundOrStepIgnored(p);
    }
  }

  lemma WholeNumbers(p: Props, v: real)
    requires Ordered(p) && Unsigned(p.format)
    requires Low(p) == Base(p) == 0.0 && High(p) == UpperBound(p.format) && StepOf(p) == Some(1.0)
    ensures Yields(Span(0.0, UpperBound(p.format), 1.0), v) <==> Adjusted(p, v) == v
  {
    FixedIff(p, v);
    TimesQuotient(1.0, 0.0);
    if InRange(p, v) && OnGrid(1.0, 0.0, v) {
      var k :| v == Grid(1.0, 0.0, k);
      GridOrder(1.0, 0.0, k, 0);
      assert k >= 0;
    }
    if Yields(Span(0.0, UpperBound(p.format), 1.0), v) {
      var k: nat :| v == Grid(1.0, 0.0, k) && v <= UpperBound(p.format);
      GridOrder(1.0, 0.0, 0, k);
    }
  }

  /** Zero below a minimum, the largest number above a maximum, or one before a larger step. */
  lemma BoundOrStepIgnored(p: Props) returns (v: real)
    requires Ordered(p) && Unsigned(p.format)
    requires !(p.minValue.Some? && p.maxValue.Some?) && p.validValueRanges.None?
    requires !(Low(p) == 0.0 && High(p) == UpperBound(p.format) && StepOf(p) == Some(1.0))
    ensures Yields(SpanOf(p).value, v) && Adjusted(p, v) != v
  {
    v := if Low(p) != 0.0 then 0.0 else if High(p) != UpperBound(p.format) then UpperBound(p.format) else 1.0;
    var k: nat := if Low(p) != 0.0 then 0 else if High(p) != UpperBound(p.format) then LargestOf(p.format) else 1;
    assert v == Grid(1.0, 0.0, k);
    FixedIff(p, v);
    if Low(p) == 0.0 && High(p) == UpperBound(p.format) { BetweenSteps(Span(0.0, High(p), StepOf(p).value), 1.0); }
  }

  /** With a valid range, the iterator yields its lower end and goes on by one. These are exactly the values of the
      range that adjusting leaves alone if and only if the lower end is on the step and either the step is one or the
      range is too small for two values. */
  lemma RangeEnumerationExactIff(p: Props)
    requires Ordered(p) && Based(p) && p.validValueRanges.Some?
    requires var (low, high) := p.validValueRanges.value; Low(p) <= low <= high <= High(p)
    ensures var (low, high) := p.validValueRanges.value;
      (forall v :: Yields(SpanOf(p).value, v) <==> low <= v <= high && Adjusted(p, v) == v) <==> RangeFits(p, low, high)
  {
    var (low, high) := p.validValueRanges.value;
    assert SpanOf(p).value == Span(low, high, 1.0);
    if RangeFits(p, low, high) {
      forall v ensures Yields(SpanOf(p).value, v) <==> low <= v <= high && Adjusted(p, v) == v {
        RangeYields(p, low, high, v);
      }
    } else {
      var v := RangeDiffers(p, low, high);
    }
  }

  ghost predicate RangeFits(p: Props, low: real, high: real) {
    && OnStep(p, low)
    && if Stepped(p) then StepOf(p) == Some(1.0) || low + Min(1.0, StepOf(p).value) > high else low == high
  }

  lemma RangeYields(p: Props, low: real, high: real, v: real)
    requires Ordered(p) && Based(p) && Low(p) <= low <= high <= High(p) && RangeFits(p, low, high)
    ensures Yields(Span(low, high, 1.0), v) <==> low <= v <= high && Adjusted(p, v) == v
  {
    FixedIff(p, v);
    TimesQuotient(1.0, 0.0);
    assert Grid(1.0, low, 0) == low;
    if Yields(Span(low, high, 1.0), v) {
      var k: nat :| v == Grid(1.0, low, k) && v <= high;
      GridOrder(1.0, low, 0, k);
      if StepOf(p) == Some(1.0) {
        var j :| low == Grid(1.0, Base(p), j);
        assert v == Grid(1.0, Base(p), j + k);
      } else if k > 0 {
        GridApart(1.0, low, 0, k);
      }
    }
    if low <= v <= high && Adjusted(p, v) == v && Stepped(p) {
      Apart(StepOf(p).value, Base(p), low, v);
      if v != low { StepsFromLow(p, low, v); }
    }
  }

  lemma StepsFromLow(p: Props, low: real, v: real)
    requires StepOf(p) == Some(1.0) && OnStep(p, low) && OnStep(p, v) && low <= v
    ensures exists k: nat :: v == Grid(1.0, low, k)
  {
    var j :| low == Grid(1.0, Base(p), j);
    var n :| v == Grid(1.0, Base(p), n);
    GridOrder(1.0, Base(p), n, j);
    assert v == Grid(1.0, low, n - j);
  }

  lemma RangeDiffers(p: Props, low: real, high: real) returns (v: real)
    requires Ordered(p) && Based(p) && Low(p) <= low <= high <= High(p) && !RangeFits(p, low, high)
    ensures Yields(Span(low, high, 1.0), v) <==> !(low <= v <= high && Adjusted(p, v) == v)
  {
    TimesQuotient(1.0, 0.0);
    assert Grid(1.0, low, 0) == low;
    if !OnStep(p, low) {
      v := low;
    } else if !Stepped(p) {
      v := (low + Min(high, low + 1.0)) / 2.0;
      BetweenSteps(Span(low, high, 1.0), v);
    } else if StepOf(p).value < 1.0 {
      v := low + StepOf(p).value;
      BetweenSteps(Span(low, high, 1.0), v);
      NextOnStep(p, low);
    } else {
      v := low + 1.0;
      assert v == Grid(1.0, low, 1);
      if OnStep(p, v) { Apart(StepOf(p).value, Base(p), low, v); }
    }
    FixedIff(p, v);
  }

  lemma NextOnStep(p: Props, low: real)
    requires Stepped(p) && OnStep(p, low)
    ensures OnStep(p, low + StepOf(p).value)
  {
    var k :| low == Grid(StepOf(p).value, Base(p), k);
    GridNext(StepOf(p).value, Base(p), k);
  }

  function LargestOf(f: Format): (n: nat)
    requires Unsigned(f)
    ensures n as real == UpperBound(f)
  {
    match f
    case UInt8 => 255
    case UInt16 => 65535
    case UInt32 => 4294967295
    case _ => 18446744073709551616
  }

  /** With a single bound the iterator of an unsigned format ignores it. */
  lemma OneBoundIsIgnored() returns (p: Props, v: real)
    ensures Ordered(p) && SpanOf(p).Some? && Yields(SpanOf(p).value, v) && Adjusted(p, v) != v
  {
    p := Props(UInt8, Some(10.0), None, None, None, None, None);
    v := BoundOrStepIgnored(p);
  }

  // ---------------------------------------------------------------- values of any type

  datatype Value = Nothing | Undefined | Truth(truth: bool) | NotANumber | Num(number: real) | Str(text: string)

  /** Reading numbers out of strings (`parseFloat`, `parseInt`) and writing values as strings are the language's. */
  datatype Language = Language(read: (Format, string) -> Option<real>, write: Value -> string)

  /** The value a characteristic holds; never a NaN, because every value stored went through these checks. */
  predicate Storable(v: Value) {
    !v.NotANumber?
  }

  /** The finite number a plugin's value stands for, with the fallback for values that stand for none. */
  function NumberOf(lang: Language, p: Props, current: Value, v: Value): real {
    var read := match v
      case Truth(b) => Some(if b then 1.0 else 0.0)
      case Num(x) => Some(x)
      case Str(text) => lang.read(p.format, text)
      case _ => None;
    if read.Some? then read.value else if current.Num? then current.number else p.minValue.GetOr(0.0)
  }

  /** An adjusted number is moved into the valid values and then into the valid range. */
  function Listed(p: Props, current: Value, x: real): Value
    requires p.validValues.Some? ==> p.validValues.value != []
  {
    if p.validValues.Some? && x !in p.validValues.value then
      if current.Num? && current.number in p.validValues.value then current else Num(p.validValues.value[0])
    else
      match p.validValueRanges
      case Some((low, high)) => Num(if x < low then low else if x > high then high else x)
      case None => Num(x)
  }

  const DEFAULT_MAX_LENGTH: nat := 64

  /** The formats whose values are adjusted rather than passed on. */
  predicate Adjustable(p: Props) {
    && (Numeric(p.format) || p.format.Bool? || p.format.Text?)
    && (p.validValues.Some? ==> p.validValues.value != [])
  }

  /** `validateUserInput` for a value that is not null and a characteristic that is neither a model nor a serial
      number. */
  function ValidateUserInput(lang: Language, p: Props, current: Value, v: Value): Value
    requires Adjustable(p)
  {
    if p.format.Bool? then
      match v
      case Truth(b) => v
      case Num(x) => Truth(x == 1.0)
      case Str(text) => Truth(text == "1" || text == "true")
      case _ => Truth(false)
    else if p.format.Text? then
      var text := match v
        case Str(text) => text
        case Num(_) => lang.write(v)
        case NotANumber => lang.write(v)
        case _ => if current.Str? then current.text else lang.write(v);
      var maxLength := p.maxLen.GetOr(DEFAULT_MAX_LENGTH);
      Str(if |text| > maxLength then text[..maxLength] else text)
    else
      Listed(p, current, Adjusted(p, NumberOf(lang, p, current, v)))
  }

  /** `validateClientSuppliedValue` for the same formats; it checks neither the step nor the floored maximum. */
  function ValidateClientSuppliedValue(p: Props, v: Value): Result<Value, ()>
    requires Adjustable(p)
  {
    if p.format.Bool? then
      match v
      case Truth(_) => Ok(v)
      case Num(x) => if x == 1.0 || x == 0.0 then Ok(Truth(x == 1.0)) else Err(())
      case _ => Err(())
    else if p.format.Text? then
      if v.Str? && |v.text| <= p.maxLen.GetOr(DEFAULT_MAX_LENGTH) then Ok(v) else Err(())
    else
      match v
      case Truth(b) => CheckNumber(p, if b then 1.0 else 0.0)
      case Num(x) => CheckNumber(p, x)
      case _ => Err(())
  }

  function CheckNumber(p: Props, x: real): Result<Value, ()>
    requires Numeric(p.format)
  {
    if x < Low(p) || x > High(p) then Err(())
    else if p.validValues.Some? && x !in p.validValues.value then Err(())
    else if p.validValueRanges.Some? && (x < p.validValueRanges.value.0 || x > p.validValueRanges.value.1) then Err(())
    else Ok(Num(x))
  }

  /** The lists agree with each other and with the bounds. */
  ghost predicate Consistent(p: Props)
    requires Numeric(p.format)
  {
    && (p.validValues.Some? ==> forall x :: x in p.validValues.value ==> CheckNumber(p, x).Ok?)
    && (p.validValueRanges.Some? ==> var (low, high) := p.validValueRanges.value; Low(p) <= low <= high <= High(p))
    && (p.validValues.None? && p.validValueRanges.None? ==> Low(p) <= Top(p))
  }

  /** Whatever a plugin hands in, what is stored is a value a controller could have written, and the check leaves it
      as it is. */
  lemma StoredIsAccepted(lang: Language, p: Props, current: Value, v: Value)
    requires Adjustable(p) && Storable(current) && (Numeric(p.format) ==> Consistent(p))
    ensures ValidateClientSuppliedValue(p, ValidateUserInput(lang, p, current, v))
      == Ok(ValidateUserInput(lang, p, current, v))
  {
    if Numeric(p.format) {
      var x := Adjusted(p, NumberOf(lang, p, current, v));
      if p.validValues.None? && p.validValueRanges.None? {
        AdjustedInRangeIff(p);
        assert InRange(p, x);
      } else if p.validValues.Some? && x !in p.validValues.value {
        assert p.validValues.value[0] in p.validValues.value;
      }
    }
  }

  /** Without lists the two checks agree on every value exactly when flooring leaves the maximum above the minimum,
      which ordered bounds with a declared minimum or an unsigned format ensure. */
  lemma ChecksAgreeIff(lang: Language, p: Props, current: Value)
    requires Numeric(p.format) && p.validValues.None? && p.validValueRanges.None?
    ensures (forall v :: ValidateClientSuppliedValue(p, ValidateUserInput(lang, p, current, v)).Ok?)
      <==> Low(p) <= Top(p)
    ensures Ordered(p) && Based(p) ==> Low(p) <= Top(p)
  {
    if Low(p) <= Top(p) {
      forall v ensures ValidateClientSuppliedValue(p, ValidateUserInput(lang, p, current, v)).Ok? {
        CheckedAlike(lang, p, current, v);
      }
    } else {
      CheckedAlike(lang, p, current, Num(0.0));
    }
    if Ordered(p) && Based(p) { BasedGrid(p); }
  }

  lemma CheckedAlike(lang: Language, p: Props, current: Value, v: Value)
    requires Numeric(p.format) && p.validValues.None? && p.validValueRanges.None?
    ensures ValidateClientSuppliedValue(p, ValidateUserInput(lang, p, current, v)).Ok? <==> Low(p) <= Top(p)
  {
    TopIsBelow(p);
    assert ValidateUserInput(lang, p, current, v) == Num(Adjusted(p, NumberOf(lang, p, current, v)));
  }

  /** Storing a stored value again changes nothing, for booleans, strings and based numbers without lists. */
  lemma StoringIsIdempotent(lang: Language, p: Props, current: Value, later: Value, v: Value)
    requires Adjustable(p) && p.validValues.None? && p.validValueRanges.None?
      && (Numeric(p.format) ==> Ordered(p) && Based(p))
    ensures var stored := ValidateUserInput(lang, p, current, v); ValidateUserInput(lang, p, later, stored) == stored
  {
    if Numeric(p.format) { AdjustedIsProper(p, NumberOf(lang, p, current, v)); }
  }

  // ---------------------------------------------------------------- what becomes of a value

  /** A finite number is stored as the allowed value nearest to it. */
  lemma NumberIsStoredClosest(lang: Language, p: Props, current: Value, x: real)
    requires Ordered(p) && Based(p) && p.validValues.None? && p.validValueRanges.None?
    ensures var stored := ValidateUserInput(lang, p, current, Num(x)); stored.Num? && Closest(p, x, stored.number)
  {
    AdjustedIsClosest(p, x);
  }

  /** What would be stored if there were no lists. */
  function Unlisted(lang: Language, p: Props, current: Value, v: Value): Value
    requires Adjustable(p)
  {
    ValidateUserInput(lang, p.(validValues := None, validValueRanges := None), current, v)
  }

  lemma UnlistedIsNumber(lang: Language, p: Props, current: Value, v: Value)
    requires Adjustable(p) && Numeric(p.format)
    ensures Unlisted(lang, p, current, v).Num?
    ensures ValidateUserInput(lang, p, current, v) == Listed(p, current, Unlisted(lang, p, current, v).number)
  {
    var q := p.(validValues := None, validValueRanges := None);
    assert Adjusted(q, NumberOf(lang, q, current, v)) == Adjusted(p, NumberOf(lang, p, current, v));
  }

  /** A list of valid values lets through what it contains, and falls back to the current value, or to its first one. */
  lemma ListDecides(lang: Language, p: Props, current: Value, v: Value)
    requires Adjustable(p) && Numeric(p.format) && p.validValues.Some? && p.validValueRanges.None?
    ensures var (plain, values) := (Unlisted(lang, p, current, v), p.validValues.value);
      && plain.Num?
      && ValidateUserInput(lang, p, current, v) ==
         if plain.number in values then plain
         else if current.Num? && current.number in values then current
         else Num(values[0])
  {
    UnlistedIsNumber(lang, p, current, v);
  }

  /** A valid range has the nearest of its values stored, of whatever a list beside it lets through. */
  lemma RangeDecides(lang: Language, p: Props, current: Value, v: Value, y: real)
    requires Adjustable(p) && Numeric(p.format) && p.validValueRanges.Some?
    requires p.validValueRanges.value.0 <= y <= p.validValueRanges.value.1
    ensures var (plain, stored) := (Unlisted(lang, p, current, v), ValidateUserInput(lang, p, current, v));
      && plain.Num? && stored.Num?
      && ((p.validValues.Some? ==> plain.number in p.validValues.value) ==>
            && p.validValueRanges.value.0 <= stored.number <= p.validValueRanges.value.1
            && Distance(stored.number, plain.number) <= Distance(y, plain.number))
  {
    UnlistedIsNumber(lang, p, current, v);
  }

  /** Booleans and readable strings are stored as the number they stand for; what stands for no number as the current
      number, or else as the minimum. */
  lemma StoredAsNumber(lang: Language, p: Props, current: Value, v: Value)
    requires Adjustable(p) && Numeric(p.format)
    ensures var number := match v
        case Truth(b) => Some(if b then 1.0 else 0.0)
        case Num(x) => Some(x)
        case Str(text) => lang.read(p.format, text)
        case _ => None;
      var fallback := if current.Num? then current.number else p.minValue.GetOr(0.0);
      ValidateUserInput(lang, p, current, v) == ValidateUserInput(lang, p, current, Num(number.GetOr(fallback)))
  {
  }

  /** So a value that stands for no number leaves a current number alone that is allowed and listed. */
  lemma NoNumberKeepsCurrent(lang: Language, p: Props, current: Value, v: Value)
    requires Adjustable(p) && Ordered(p) && Based(p)
    requires current.Num? && Allowed(p, current.number)
    requires p.validValues.Some? ==> current.number in p.validValues.value
    requires p.validValueRanges.Some? ==> p.validValueRanges.value.0 <= current.number <= p.validValueRanges.value.1
    requires v.Nothing? || v.Undefined? || v.NotANumber? || (v.Str? && lang.read(p.format, v.text).None?)
    ensures ValidateUserInput(lang, p, current, v) == current
  {
    StoredAsNumber(lang, p, current, v);
    FixedIff(p, current.number);
  }

  /** The four values that count as true. */
  lemma BooleanIsTrueIff(lang: Language, p: Props, current: Value, v: Value)
    requires Adjustable(p) && p.format.Bool?
    ensures ValidateUserInput(lang, p, current, v) == Truth(v in {Truth(true), Num(1.0), Str("1"), Str("true")})
  {
  }

  /** A text is cut to its longest prefix allowed; a number is written out first, and anything else leaves a current
      text, or is written out. */
  lemma TextIsStoredCut(lang: Language, p: Props, current: Value, v: Value)
    requires Adjustable(p) && p.format.Text?
    ensures var stored := ValidateUserInput(lang, p, current, v);
      var text := if v.Str? then v.text
                  else if current.Str? && !v.Num? && !v.NotANumber? then current.text
                  else lang.write(v);
      var limit := if p.maxLen.Some? then p.maxLen.value else 64;
      && stored.Str? && stored.text <= text
      && |stored.text| <= limit && (stored.text == text || |stored.text| == limit)
  {
  }

  /** A controller may write exactly the numbers in range and in the lists, as a boolean or a number, and what is
      written is that number. */
  lemma ControllerNumberIff(p: Props, v: Value)
    requires Adjustable(p) && Numeric(p.format)
    ensures var x := if v.Num? then v.number else if v == Truth(true) then 1.0 else 0.0;
      var checked := ValidateClientSuppliedValue(p, v);
      && (checked.Ok? <==>
            && (v.Num? || v.Truth?) && InRange(p, x)
            && (p.validValues.Some? ==> x in p.validValues.value)
            && (p.validValueRanges.Some? ==> p.validValueRanges.value.0 <= x <= p.validValueRanges.value.1))
      && (checked.Ok? ==> checked.value == Num(x))
  {
  }

  /** It may write a boolean as a boolean, one or zero, and a text that is short enough. */
  lemma ControllerOtherIff(p: Props, v: Value)
    requires Adjustable(p) && !Numeric(p.format)
    ensures var checked := ValidateClientSuppliedValue(p, v);
      if p.format.Bool? then
        && (checked.Ok? <==> v in {Truth(true), Truth(false), Num(1.0), Num(0.0)})
        && (checked.Ok? ==> checked.value == Truth(v in {Truth(true), Num(1.0)}))
      else
        && (checked.Ok? <==> v.Str? && |v.text| <= if p.maxLen.Some? then p.maxLen.value else 64)
        && (checked.Ok? ==> checked.value == v)
  {
  }
}
