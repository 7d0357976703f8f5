/** The numbers, strings and booleans a characteristic may hold: what `setProps` keeps of the declared bounds, how
    values from plugins are adjusted, how values from controllers are checked, and which values are enumerated. */
module CharacteristicValues {
  import opened Reals
  import opened Wrappers

  /** The largest finite number of the language, `Number.MAX_VALUE`, whatever it is. */
  type Magnitude = x: real | x >= 0.0

  datatype Format = Bool | Int | Float(largest: Magnitude) | UInt8 | UInt16 | UInt32 | UInt64 | Text | Data | Tlv8

  predicate Numeric(f: Format) {
    f.Int? || f.Float? || Unsigned(f)
  }

  predicate Unsigned(f: Format) {
    f.UInt8? || f.UInt16? || f.UInt32? || f.UInt64?
  }

  function LowerBound(f: Format): real
    requires Numeric(f)
  {
    match f
    case Int => -2147483648.0
    case Float(largest) => 0.0 - largest
    case _ => 0.0
  }

  /** The source's literal for 64 bits is rounded by the language to the next power of two. */
  function UpperBound(f: Format): real
    requires Numeric(f)
  {
    match f
    case Int => 2147483647.0
    case Float(largest) => largest
    case UInt8 => 255.0
    case UInt16 => 65535.0
    case UInt32 => 4294967295.0
    case _ => 18446744073709551616.0
  }

  function Pow2(n: nat): nat {
    if n == 0 then 1 else 2 * Pow2(n - 1)
  }

  /** The bounds of a format are those of its width, and symmetric for a float. */
  lemma FormatBounds(f: Format)
    requires Numeric(f)
    ensures Unsigned(f) ==> LowerBound(f) == 0.0
    ensures match f
      case Int => LowerBound(f) == -(Pow2(31) as real) && UpperBound(f) == (Pow2(31) - 1) as real
      case Float(largest) => LowerBound(f) == -UpperBound(f) && UpperBound(f) == largest
      case UInt8 => UpperBound(f) == (Pow2(8) - 1) as real
      case UInt16 => UpperBound(f) == (Pow2(16) - 1) as real
      case UInt32 => UpperBound(f) == (Pow2(32) - 1) as real
      case UInt64 => UpperBound(f) == Pow2(64) as real
  {
    Powers();
  }

  lemma Powers()
    ensures Pow2(8) == 0x100 && Pow2(16) == 0x1_0000 && Pow2(32) == 0x1_0000_0000
    ensures Pow2(31) == 0x8000_0000 && Pow2(64) == 0x1_0000_0000_0000_0000
  {
    assert Pow2(4) == 16;
    Pow2Sum(4, 4);
    Pow2Sum(8, 8);
    Pow2Sum(16, 16);
    Pow2Sum(32, 32);
  }

  lemma {:induction false} Pow2Sum(m: nat, n: nat)
    ensures Pow2(m + n) == Pow2(m) * Pow2(n)
  {
    if m > 0 { Pow2Sum(m - 1, n); }
  }

  function MaxWithUndefined(a: Option<real>, b: Option<real>): Option<real> {
    if a.None? then b else if b.None? then a else Some(Max(a.value, b.value))
  }

  function MinWithUndefined(a: Option<real>, b: Option<real>): Option<real> {
    if a.None? then b else if b.None? then a else Some(Min(a.value, b.value))
  }

  /** The properties that restrict a value. */
  datatype Props = Props(
    format: Format,
    minValue: Option<real>,
    maxValue: Option<real>,
    minStep: Option<real>,
    validValues: Option<seq<real>>,
    validValueRanges: Option<(real, real)>,
    maxLen: Option<nat>)

  // ---------------------------------------------------------------- setProps

  /** One field of an update: left out, null, a number, or something that is not a finite number. */
  datatype Field = Absent | Null | NotFinite | Number(value: real)

  datatype ListField<T> = NoList | NullList | List(list: T)

  datatype Update = Update(
    minValue: Field,
    maxValue: Field,
    minStep: ListField<real>,
    validValues: ListField<seq<real>>,
    validValueRanges: ListField<seq<real>>)

  datatype Outcome = Accepted | EmptyValidValues | MalformedRange | BoundsCrossed

  /** A bound outside the format falls back to the bound of the format itself, whichever side it missed. */
  function NewMin(p: Props, f: Field): Option<real>
    requires Numeric(p.format)
  {
    match f
    case Absent => p.minValue
    case Null => None
    case NotFinite => None
    case Number(x) => Some(if LowerBound(p.format) <= x <= UpperBound(p.format) then x else LowerBound(p.format))
  }

  function NewMax(p: Props, f: Field): Option<real>
    requires Numeric(p.format)
  {
    match f
    case Absent => p.maxValue
    case Null => None
    case NotFinite => None
    case Number(x) => Some(if LowerBound(p.format) <= x <= UpperBound(p.format) then x else UpperBound(p.format))
  }

  function NewList<T>(before: Option<T>, f: ListField<T>): Option<T> {
    match f
    case NoList => before
    case NullList => None
    case List(x) => Some(x)
  }

  function NewRange(before: Option<(real, real)>, f: ListField<seq<real>>): Option<(real, real)> {
    match f
    case NoList => before
    case NullList => None
    case List(ends) => if |ends| == 2 then Some((ends[0], ends[1])) else before
  }

  predicate ListsAccepted(u: Update) {
    && (u.validValues.List? ==> u.validValues.list != [])
    && (u.validValueRanges.List? ==> |u.validValueRanges.list| == 2)
  }

  predicate Crossed(min: Option<real>, max: Option<real>) {
    min.Some? && max.Some? && min.value > max.value
  }

  /** Bounds that lie in the format and do not cross. */
  predicate Ordered(p: Props) {
    && Numeric(p.format)
    && (p.minValue.Some? ==> LowerBound(p.format) <= p.minValue.value <= UpperBound(p.format))
    && (p.maxValue.Some? ==> LowerBound(p.format) <= p.maxValue.value <= UpperBound(p.format))
    && !Crossed(p.minValue, p.maxValue)
  }

  class Characteristic {
    var props: Props

    constructor (format: Format)
      ensures props == Props(format, None, None, None, None, None, None)
    {
      props := Props(format, None, None, None, None, None, None);
    }

    method SetMinValue(f: Field)
      requires Numeric(props.format)
      modifies this
      ensures props == old(props).(minValue := NewMin(old(props), f))
    {
      match f
      case Absent =>
      case Null => props := props.(minValue := None);
      case NotFinite => props := props.(minValue := None);
      case Number(x) =>
        var min := x;
        if min < LowerBound(props.format) {
          min := LowerBound(props.format);
        } else if min > UpperBound(props.format) {
          min := LowerBound(props.format);
        }
        props := props.(minValue := Some(min));
    }

    method SetMaxValue(f: Field)
      requires Numeric(props.format)
      modifies this
      ensures props == old(props).(maxValue := NewMax(old(props), f))
    {
      match f
      case Absent =>
      case Null => props := props.(maxValue := None);
      case NotFinite => props := props.(maxValue := None);
      case Number(x) =>
        var max := x;
        if max > UpperBound(props.format) {
          max := UpperBound(props.format);
        } else if max < LowerBound(props.format) {
          max := UpperBound(props.format);
        }
        props := props.(maxValue := Some(max));
    }

    /** The step and the lists of values; a list the source asserts against ends the call. */
    method SetLists(u: Update) returns (outcome: Outcome)
      modifies this
      ensures outcome == (if u.validValues == List([]) then EmptyValidValues
                          else if u.validValueRanges.List? && |u.validValueRanges.list| != 2 then MalformedRange
                          else Accepted)
      ensures var p := old(props).(minStep := NewList(old(props.minStep), u.minStep));
        props == if outcome.EmptyValidValues? then p
                 else if outcome.MalformedRange? then p.(validValues := NewList(p.validValues, u.validValues))
                 else p.(validValues := NewList(p.validValues, u.validValues),
                         validValueRanges := NewRange(p.validValueRanges, u.validValueRanges))
    {
      match u.minStep {
        case NoList =>
        case NullList => props := props.(minStep := None);
        case List(step) => props := props.(minStep := Some(step));
      }
      match u.validValues {
        case NoList =>
        case NullList => props := props.(validValues := None);
        case List(values) =>
          if |values| == 0 {
            return EmptyValidValues;
          }
          props := props.(validValues := Some(values));
      }
      match u.validValueRanges {
        case NoList =>
        case NullList => props := props.(validValueRanges := None);
        case List(ends) =>
          if |ends| != 2 {
            return MalformedRange;
          }
          props := props.(validValueRanges := Some((ends[0], ends[1])));
      }
      return Accepted;
    }

    /** `setProps` on a characteristic of a fixed numeric format. The assertions about the lists come after the bounds
        are assigned and before they are compared, so they decide whether ordered bounds stay ordered. */
    method SetProps(u: Update) returns (outcome: Outcome)
      requires Numeric(props.format)
      modifies this
      ensures outcome.Accepted?
        <==> ListsAccepted(u) && !Crossed(NewMin(old(props), u.minValue), NewMax(old(props), u.maxValue))
      ensures outcome.BoundsCrossed?
        <==> ListsAccepted(u) && Crossed(NewMin(old(props), u.minValue), NewMax(old(props), u.maxValue))
      ensures props.minValue == AfterUpdate(old(props), u).minValue
        && props.maxValue == AfterUpdate(old(props), u).maxValue
      ensures props.format == old(props.format) && props.maxLen == old(props.maxLen)
      ensures props.minStep == NewList(old(props.minStep), u.minStep)
      ensures outcome.EmptyValidValues? <==> u.validValues == List([])
      ensures outcome.MalformedRange? <==> u.validValues != List([]) && !ListsAccepted(u)
      ensures props.validValues ==
        if outcome.EmptyValidValues? then old(props.validValues) else NewList(old(props.validValues), u.validValues)
      ensures props.validValueRanges ==
        if ListsAccepted(u) then NewRange(old(props.validValueRanges), u.validValueRanges)
        else old(props.validValueRanges)
    {
      SetMinValue(u.minValue);
      SetMaxValue(u.maxValue);
      outcome := SetLists(u);
      if !outcome.Accepted? {
        return;
      }
      if props.minValue.Some? && props.maxValue.Some? && props.minValue.value > props.maxValue.value {
        props := props.(minValue := None, maxValue := None);
        return BoundsCrossed;
      }
    }
  }

  /** The bounds after one call of `setProps`, as its contract gives them. */
  function AfterUpdate(p: Props, u: Update): Props
    requires Numeric(p.format)
  {
    var (min, max) := (NewMin(p, u.minValue), NewMax(p, u.maxValue));
    var crossed := ListsAccepted(u) && Crossed(min, max);
    p.(minValue := if crossed then None else min, maxValue := if crossed then None else max)
  }

  /** What is asked of a bound: to stay, to go, or to be a number, for which the
      bound of the format stands in if it does not fit. */
  predicate Declared(before: Option<real>, f: Field, fallback: real, format: Format, after: Option<real>)
    requires Numeric(format)
  {
    match f
    case Absent => after == before
    case Number(x) => after == Some(if x < LowerBound(format) || x > UpperBound(format) then fallback else x)
    case _ => after == None
  }

  /** One call sets the bounds asked for, except that bounds that cross are both dropped, unless a list is rejected. */
  lemma BoundsAreSet(p: Props, u: Update) returns (min: Option<real>, max: Option<real>)
    requires Numeric(p.format)
    ensures Declared(p.minValue, u.minValue, LowerBound(p.format), p.format, min)
    ensures Declared(p.maxValue, u.maxValue, UpperBound(p.format), p.format, max)
    ensures var crossed := min.Some? && max.Some? && min.value > max.value;
      var rejected := u.validValues == List([]) || (u.validValueRanges.List? && |u.validValueRanges.list| != 2);
      AfterUpdate(p, u) ==
        if crossed && !rejected then p.(minValue := None, maxValue := None) else p.(minValue := min, maxValue := max)
  {
    min, max := NewMin(p, u.minValue), NewMax(p, u.maxValue);
  }

  function AfterUpdates(p: Props, us: seq<Update>): (r: Props)
    requires Numeric(p.format)
    ensures r.format == p.format
  {
    if us == [] then p else AfterUpdate(AfterUpdates(p, us[..|us| - 1]), us[|us| - 1])
  }

  /** After any calls, as long as none of them hands in an empty list of valid values or a range without two ends, the
      bounds that are set lie in the format and in order. */
  lemma {:induction false} UpdatesKeepOrder(p: Props, us: seq<Update>)
    requires Ordered(p) && forall k :: 0 <= k < |us| ==> ListsAccepted(us[k])
    ensures Ordered(AfterUpdates(p, us))
  {
    if us != [] { UpdatesKeepOrder(p, us[..|us| - 1]); }
  }

  /** One call keeps the bounds in order exactly when it does not hand in a rejected list together with bounds that
      cross: such a call throws before it compares the bounds, and leaves them crossed. */
  lemma UpdateKeepsOrderIff(p: Props, u: Update)
    requires Ordered(p)
    ensures Ordered(AfterUpdate(p, u)) <==> ListsAccepted(u) || !Crossed(NewMin(p, u.minValue), NewMax(p, u.maxValue))
  {
  }

  lemma RejectedListCrossesBounds() returns (p: Props, u: Update)
    ensures Ordered(p) && !ListsAccepted(u) && !Ordered(AfterUpdate(p, u))
  {
    p := Props(Int, None, Some(5.0), None, None, None, None);
    u := Update(Number(10.0), Absent, NoList, List([]), NoList);
  }
}
