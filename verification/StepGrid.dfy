/** Rounding to the multiples of a step, counted from a base. */
module StepGrid {
  function Times(step: real, k: real): real {
    step * k
  }

  function Grid(step: real, base: real, k: int): real {
    Times(step, k as real) + base
  }

  /** `step * Math.floor((x - base) / step) + base` */
  function FloorTo(step: real, base: real, x: real): real
    requires step > 0.0
  {
    Grid(step, base, ((x - base) / step).Floor)
  }

  /** `step * Math.round((x - base) / step) + base`; `Math.round` rounds halves up. */
  function RoundTo(step: real, base: real, x: real): real
    requires step > 0.0
  {
    Grid(step, base, ((x - base) / step + 0.5).Floor)
  }

  ghost predicate OnGrid(step: real, base: real, x: real) {
    exists k :: x == Grid(step, base, k)
  }

  lemma TimesOrder(step: real, a: real, b: real)
    requires step > 0.0
    ensures a <= b <==> Times(step, a) <= Times(step, b)
    ensures a < b <==> Times(step, a) < Times(step, b)
  {
  }

  lemma TimesSum(step: real, a: real, b: real)
    ensures Times(step, a + b) == Times(step, a) + Times(step, b)
  {
  }

  lemma TimesQuotient(step: real, x: real)
    requires step > 0.0
    ensures Times(step, x / step) == x && Times(step, 1.0) == step && Times(step, 0.5) == step / 2.0
  {
  }

  lemma GridOrder(step: real, base: real, j: int, k: int)
    requires step > 0.0
    ensures j < k <==> Grid(step, base, j) < Grid(step, base, k)
    ensures j <= k <==> Grid(step, base, j) <= Grid(step, base, k)
  {
    TimesOrder(step, j as real, k as real);
  }

  lemma GridNext(step: real, base: real, k: int)
    requires step > 0.0
    ensures Grid(step, base, k + 1) == Grid(step, base, k) + step
  {
    TimesSum(step, k as real, 1.0);
    TimesQuotient(step, step);
  }

  lemma GridApart(step: real, base: real, j: int, k: int)
    requires step > 0.0 && j < k
    ensures Grid(step, base, j) + step <= Grid(step, base, k)
  {
    GridNext(step, base, j);
    GridOrder(step, base, j + 1, k);
  }

  lemma FloorToNear(step: real, base: real, x: real)
    requires step > 0.0
    ensures FloorTo(step, base, x) <= x < FloorTo(step, base, x) + step
  {
    var q := (x - base) / step;
    TimesQuotient(step, x - base);
    TimesOrder(step, q.Floor as real, q);
    TimesOrder(step, q, q.Floor as real + 1.0);
    TimesSum(step, q.Floor as real, 1.0);
  }

  /** Flooring goes to the greatest point of the grid that is not above. */
  lemma FloorToIff(step: real, base: real, x: real, k: int)
    requires step > 0.0
    ensures Grid(step, base, k) <= x <==> Grid(step, base, k) <= FloorTo(step, base, x)
  {
    FloorToNear(step, base, x);
    var n := ((x - base) / step).Floor;
    if n < k { GridApart(step, base, n, k); } else { GridOrder(step, base, k, n); }
  }

  lemma RoundToNear(step: real, base: real, x: real)
    requires step > 0.0
    ensures RoundTo(step, base, x) - step / 2.0 <= x < RoundTo(step, base, x) + step / 2.0
  {
    var q := (x - base) / step;
    var n := (q + 0.5).Floor as real;
    TimesQuotient(step, x - base);
    TimesOrder(step, n, q + 0.5);
    TimesOrder(step, q, n + 0.5);
    TimesSum(step, q, 0.5);
    TimesSum(step, n, 0.5);
  }

  /** Rounding goes to the point of the grid within half a step. */
  lemma RoundToIff(step: real, base: real, x: real, k: int)
    requires step > 0.0
    ensures RoundTo(step, base, x) == Grid(step, base, k)
      <==> Grid(step, base, k) - step / 2.0 <= x < Grid(step, base, k) + step / 2.0
  {
    RoundToNear(step, base, x);
    var n := ((x - base) / step + 0.5).Floor;
    if n < k { GridApart(step, base, n, k); } else if k < n { GridApart(step, base, k, n); }
  }

  lemma Rounded(step: real, base: real, x: real)
    requires step > 0.0
    ensures OnGrid(step, base, RoundTo(step, base, x)) && OnGrid(step, base, FloorTo(step, base, x))
    ensures RoundTo(step, base, x) == x <==> OnGrid(step, base, x)
  {
    assert OnGrid(step, base, RoundTo(step, base, x));
    if OnGrid(step, base, x) {
      var j :| x == Grid(step, base, j);
      RoundToIff(step, base, x, j);
    }
  }

  lemma RoundToMonotone(step: real, base: real, x: real, y: real)
    requires step > 0.0 && x <= y
    ensures RoundTo(step, base, x) <= RoundTo(step, base, y)
  {
    var (p, q) := ((x - base) / step, (y - base) / step);
    TimesQuotient(step, x - base);
    TimesQuotient(step, y - base);
    TimesOrder(step, p, q);
    GridOrder(step, base, (p + 0.5).Floor, (q + 0.5).Floor);
  }
}
