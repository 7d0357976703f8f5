/** The Adaptive Lighting controller around the curve search: its update timer, its listeners on the light's
    characteristics and the rate at which it notifies. */
module AdaptiveLighting {
  import opened Reals
  import opened Wrappers
  import opened TransitionCurve

  type Millis = t: real | t >= 0.0

  datatype Transition = Transition(
    curve: Curve,
    start: real,
    timeOffset: real,
    updateInterval: Millis,
    notifyThreshold: Millis,
    minBrightness: real,
    maxBrightness: real)

  /** What the controller finds when it looks at the light: optional characteristics, the cached brightness, the
      bounds of the color temperature, the hue and saturation the temperature converts to, and whether the SET handler
      it calls turns Adaptive Lighting off. */
  datatype Light = Light(
    hasHue: bool,
    hasSaturation: bool,
    brightness: real,
    minTemperature: real,
    maxTemperature: real,
    hue: real,
    saturation: real,
    handlerDisables: bool)

  /** `None` stands for a temperature that is not a number, as a zero transition time produces. */
  type Temperature = Option<real>

  datatype Effect =
    | SetTemperature(temperature: Temperature, saturation: Option<real>, hue: Option<real>)
    | Batch(now: real, threshold: Millis, told: Option<Temperature>, saturation: Option<real>, hue: Option<real>)
    | Disabled
    | ManualUpdate
    | ManualDisable
    | Answered(point: Option<Point>)   // to a user who asks for the current point

  /** When the controller notified last, and what it told. */
  datatype Notification = Notification(at: real, temperature: Temperature, saturation: real, hue: real)

  /** How many of the controller's listeners are attached to each characteristic. */
  datatype Listeners = Listeners(temperature: nat, brightness: nat, hue: nat, saturation: nat)

  datatype Controller = Controller(
    automatic: bool,
    customAdjustment: real,
    active: Option<Transition>,
    initialized: bool,
    knowsLight: bool,
    knowsHue: bool,
    knowsSaturation: bool,
    listeners: Listeners,
    last: Option<Saved>,
    timer: Option<nat>,      // the handle in updateTimeout
    armed: set<nat>,         // the update timers that will still fire
    nextTimer: nat,
    delayed: nat,            // one-second timers of brightness reads
    notified: Notification,
    log: seq<Effect>)

  const NO_LISTENERS := Listeners(0, 0, 0, 0)

  const NOTHING_TOLD := Notification(0.0, Some(0.0), 0.0, 0.0)

  function Created(automatic: bool, customAdjustment: real): Controller {
    Controller(automatic, customAdjustment, None, false, false, false, false, NO_LISTENERS, None, None, {}, 0, 0,
               NOTHING_TOLD, [])
  }

  // ---------------------------------------------------------------- the temperature

  function Round(x: real): real {
    (x + 0.5).Floor as real
  }

  function Clamp(low: real, high: real, x: real): real {
    Max(low, Min(high, x))
  }

  function Defined(point: Point): bool {
    point.upperBound.transitionTime != 0.0
      || (point.lowerBound.Stay() != 0.0 && point.transitionOffset <= point.lowerBound.Stay())
  }

  function TemperatureFor(value: Value, t: Transition, customAdjustment: real, light: Light): real {
    Shown(Compensated(value, Clamp(t.minBrightness, t.maxBrightness, light.brightness)), customAdjustment, light)
  }

  function Compensated(value: Value, multiplier: real): real {
    value.temperature + value.adjustment * multiplier
  }

  function Shown(temperature: real, customAdjustment: real, light: Light): real {
    Clamp(light.minTemperature, light.maxTemperature, Round(temperature) + customAdjustment)
  }

  function TemperatureAt(point: Point, t: Transition, customAdjustment: real, light: Light): Temperature {
    if point.upperBound.transitionTime != 0.0 then Some(TemperatureFor(Interpolate(point), t, customAdjustment, light))
    else if Defined(point) then
      Some(TemperatureFor(Value(point.lowerBound.temperature, point.lowerBound.adjustment), t, customAdjustment, light))
    else None
  }

  /** Whatever the schedule asks for, the light is only told temperatures it supports. */
  lemma TemperatureSupported(point: Point, t: Transition, customAdjustment: real, light: Light)
    requires light.minTemperature <= light.maxTemperature
    ensures var temperature := TemperatureAt(point, t, customAdjustment, light);
      temperature.Some? ==> light.minTemperature <= temperature.value <= light.maxTemperature
  {
  }

  lemma CompensatedOrder(value: Value, a: real, b: real)
    requires a <= b
    ensures value.adjustment >= 0.0 ==> Compensated(value, a) <= Compensated(value, b)
    ensures value.adjustment <= 0.0 ==> Compensated(value, b) <= Compensated(value, a)
  {
    var factor := value.adjustment;
    if factor >= 0.0 {
      ProductNonNegative(factor, b - a);
      assert factor * (b - a) == factor * b - factor * a;
    } else {
      ProductNonNegative(0.0 - factor, b - a);
      assert (0.0 - factor) * (b - a) == factor * a - factor * b;
    }
  }

  lemma RoundOrder(x: real, y: real)
    requires x <= y
    ensures Round(x) <= Round(y)
  {
    FloorOrder((x + 0.5).Floor, (y + 0.5).Floor, x + 0.5, y + 0.5);
  }

  lemma FloorOrder(m: int, n: int, x: real, y: real)
    requires m as real <= x <= y < n as real + 1.0
    ensures m <= n
  {
  }

  lemma ShownOrder(x: real, y: real, customAdjustment: real, light: Light)
    requires x <= y
    ensures Shown(x, customAdjustment, light) <= Shown(y, customAdjustment, light)
  {
    RoundOrder(x, y);
  }

  /** The same light at another brightness moves in the direction of the adjustment factor, never against it. */
  lemma TemperatureFollowsBrightness(value: Value, t: Transition, customAdjustment: real, light: Light, brighter: real)
    requires light.brightness <= brighter
    ensures var (now, later) :=
      (TemperatureFor(value, t, customAdjustment, light),
       TemperatureFor(value, t, customAdjustment, light.(brightness := brighter)));
      (value.adjustment >= 0.0 ==> now <= later) && (value.adjustment <= 0.0 ==> later <= now)
  {
    var (a, b) :=
      (Clamp(t.minBrightness, t.maxBrightness, light.brightness), Clamp(t.minBrightness, t.maxBrightness, brighter));
    CompensatedOrder(value, a, b);
    if Compensated(value, a) <= Compensated(value, b) {
      ShownOrder(Compensated(value, a), Compensated(value, b), customAdjustment, light);
    }
    if Compensated(value, b) <= Compensated(value, a) {
      ShownOrder(Compensated(value, b), Compensated(value, a), customAdjustment, light);
    }
  }

  /** Brightness counts only inside the range the transition declares. */
  lemma BrightnessIsCapped(value: Value, t: Transition, customAdjustment: real, light: Light)
    requires t.minBrightness <= t.maxBrightness
    ensures var brightness :=
        if light.brightness < t.minBrightness then t.minBrightness
        else if light.brightness > t.maxBrightness then t.maxBrightness
        else light.brightness;
      TemperatureFor(value, t, customAdjustment, light)
        == Shown(Compensated(value, brightness), customAdjustment, light)
  {
  }

  // ---------------------------------------------------------------- the transitions of the controller

  function Less(n: nat, known: bool): nat {
    if known && n > 0 then n - 1 else n
  }

  function TimerCleared(c: Controller): Controller {
    if c.timer.Some? then c.(timer := None, armed := c.armed - {c.timer.value}) else c
  }

  /** The listeners left after removing one from every characteristic the controller holds on to. */
  function Detached(c: Controller): Listeners {
    if c.active.None? then c.listeners
    else
      Listeners(Less(c.listeners.temperature, c.knowsLight), Less(c.listeners.brightness, c.knowsLight),
                Less(c.listeners.hue, c.knowsHue), Less(c.listeners.saturation, c.knowsSaturation))
  }

  function Disable(c: Controller): Controller {
    TimerCleared(c).(active := None, listeners := Detached(c), knowsLight := false, knowsHue := false,
                     knowsSaturation := false, last := None, notified := NOTHING_TOLD, initialized := false,
                     log := c.log + [Disabled])
  }

  function Enable(c: Controller, light: Light): Controller {
    c.(initialized := true, knowsLight := true,
       knowsHue := c.knowsHue || light.hasHue, knowsSaturation := c.knowsSaturation || light.hasSaturation,
       listeners := Listeners(c.listeners.temperature + 1, c.listeners.brightness + 1,
                              c.listeners.hue + (if light.hasHue then 1 else 0),
                              c.listeners.saturation + (if light.hasSaturation then 1 else 0)))
  }

  /** The value for a characteristic the controller may hold on to. */
  function Held(knows: bool, x: real): Option<real> {
    if knows then Some(x) else None
  }

  /** A held value that differs from the one told last. */
  function News(knows: bool, lastTold: real, x: real): Option<real> {
    if knows && lastTold != x then Some(x) else None
  }

  function Notified(c: Controller, now: real, threshold: Millis, temperature: Temperature, light: Light): Controller {
    var before := c.notified;
    if now - before.at < threshold then c
    else
      var told := if temperature.None? || before.temperature != temperature then Some(temperature) else None;
      var saturation := News(c.knowsSaturation, before.saturation, light.saturation);
      var hue := News(c.knowsHue, before.hue, light.hue);
      c.(notified := Notification(now, temperature, saturation.GetOr(before.saturation), hue.GetOr(before.hue)),
         log := c.log + [Batch(now, threshold, told, saturation, hue)])
  }

  /** The offset of the clock into the running schedule. */
  function OffsetAt(t: Transition, now: real): real {
    now - t.timeOffset - t.start
  }

  /** Everything up to the search: the handle dropped, the listeners attached, the hit remembered. */
  ghost function Searched(c: Controller, dryRun: bool, t: Transition, now: real, light: Light): Controller {
    var c1 := if dryRun then c else c.(timer := None);
    var c2 := if c.initialized then c1 else Enable(c1, light);
    c2.(last := SavedOf(t.curve, Lookup(t.curve, c.last, OffsetAt(t, now))))
  }

  function TimerArmed(c: Controller): Controller {
    c.(timer := Some(c.nextTimer), armed := c.armed + {c.nextTimer}, nextTimer := c.nextTimer + 1)
  }

  /** The light told its color and then its temperature. */
  function Told(c: Controller, temperature: Temperature, light: Light): Controller {
    var effect := SetTemperature(temperature, Held(c.knowsSaturation, light.saturation), Held(c.knowsHue, light.hue));
    c.(log := c.log + [effect])
  }

  /** Setting the temperature, and, unless this is a dry run, notifying and arming the next update. */
  function Applied(c: Controller, dryRun: bool, t: Transition, now: real, temperature: Temperature,
                   light: Light): Controller
  {
    var c1 := Told(c, temperature, light);
    if light.handlerDisables then Disable(c1)
    else if dryRun then c1
    else TimerArmed(Notified(c1, now, t.notifyThreshold, temperature, light))
  }

  /** `scheduleNextUpdate`; it throws right away when no transition is active. */
  ghost function Scheduled(c: Controller, dryRun: bool, now: real, light: Light): Controller {
    if c.active.None? then c
    else
      var t := c.active.value;
      var found := Lookup(t.curve, c.last, OffsetAt(t, now));
      var c' := Searched(c, dryRun, t, now, light);
      if found.None? then (if dryRun then c' else Disable(c'))
      else
        var point := PointOf(t.curve, found, OffsetAt(t, now)).value;
        Applied(c', dryRun, t, now, TemperatureAt(point, t, c.customAdjustment, light), light)
  }

  ghost function Updated(c: Controller, now: real, light: Light): Controller {
    if c.automatic then Scheduled(c, false, now, light) else c.(log := c.log + [ManualUpdate])
  }

  datatype Watched = TemperatureWritten | HueWritten | SaturationWritten

  datatype Event =
    | Renew(transition: Transition, written: real, now: real, light: Light)   // a curve is written
    | DisableCommand                                                // empty configuration written, or factory reset
    | DisableCall                                                   // by the user, or after a malformed write
    | Restore(transition: Transition, now: real, light: Light)      // from disk
    | TimerFires(timer: nat, now: real, light: Light)
    | BrightnessChanged(byRead: bool, now: real, light: Light)
    | DelayFires(now: real, light: Light)
    | ManualWrite(watched: Watched)
    | Ask(now: real)                                                // by the user, for the current point

  /** The schedule of a curve that is written starts at that moment, whatever the clock of its author says. */
  function Written(t: Transition, written: real): Transition {
    t.(timeOffset := written - t.start)
  }

  /** The public `getCurrentAdaptiveLightingTransitionPoint`, which throws when no transition is active. */
  ghost function Asked(c: Controller, now: real): Controller {
    if c.active.None? then c
    else
      var t := c.active.value;
      var found := Lookup(t.curve, c.last, OffsetAt(t, now));
      c.(last := SavedOf(t.curve, found), log := c.log + [Answered(PointOf(t.curve, found, OffsetAt(t, now)))])
  }

  ghost function Step(c: Controller, e: Event): Controller {
    match e
    case Renew(t, written, now, light) => Updated(TimerCleared(c.(active := Some(Written(t, written)))), now, light)
    case Ask(now) => Asked(c, now)
    case Restore(t, now, light) => Updated(c.(active := Some(t)), now, light)
    case DisableCommand => Disable(if !c.automatic && c.active.Some? then c.(log := c.log + [ManualDisable]) else c)
    case DisableCall => Disable(c)
    case TimerFires(id, now, light) =>
      if id in c.armed then Scheduled(c.(armed := c.armed - {id}), false, now, light) else c
    case BrightnessChanged(byRead, now, light) =>
      if c.listeners.brightness == 0 then c
      else if byRead then c.(delayed := c.delayed + 1)
      else Scheduled(c, true, now, light)
    case DelayFires(now, light) =>
      if c.delayed == 0 then c else Scheduled(c.(delayed := c.delayed - 1), true, now, light)
    case ManualWrite(w) =>
      var attached := match w
        case TemperatureWritten => c.listeners.temperature
        case HueWritten => c.listeners.hue
        case SaturationWritten => c.listeners.saturation;
      if attached == 0 then c else Disable(c)
  }

  // ---------------------------------------------------------------- what every step keeps

  function Bit(b: bool): nat { if b then 1 else 0 }

  /** Exactly one timer while a transition is active and none otherwise; one listener per known characteristic
      exactly while the first initialization has been made. In manual mode there is neither. */
  ghost predicate Invariant(c: Controller) {
    && (c.timer.Some? <==> c.automatic && c.active.Some?)
    && c.armed == (if c.timer.Some? then {c.timer.value} else {})
    && (c.timer.Some? ==> c.timer.value < c.nextTimer)
    && (c.initialized <==> c.automatic && c.active.Some?)
    && (c.delayed > 0 ==> c.automatic)
    && c.knowsLight == c.initialized
    && (c.knowsHue || c.knowsSaturation ==> c.initialized)
    && c.listeners == Listeners(Bit(c.initialized), Bit(c.initialized), Bit(c.knowsHue), Bit(c.knowsSaturation))
  }

  /** A disable removes every listener, timer and memory, whatever happened before. */
  lemma DisableRemovesAll(c: Controller)
    requires Invariant(c)
    ensures Invariant(Disable(c))
    ensures Disable(c)
      == Created(c.automatic, c.customAdjustment).(nextTimer := c.nextTimer, delayed := c.delayed,
                                                   log := c.log + [Disabled])
  {
  }

  /** The state right before an update: the timer that led here is gone, the rest is in order. */
  ghost predicate ReadyToUpdate(c: Controller) {
    && c.automatic && c.active.Some?
    && c.armed == {}
    && c.knowsLight == c.initialized
    && (c.knowsHue || c.knowsSaturation ==> c.initialized)
    && c.listeners == Listeners(Bit(c.initialized), Bit(c.initialized), Bit(c.knowsHue), Bit(c.knowsSaturation))
  }

  lemma UpdateKeeps(c: Controller, now: real, light: Light)
    requires ReadyToUpdate(c)
    ensures Invariant(Scheduled(c, false, now, light))
  {
  }

  lemma DryRunKeeps(c: Controller, now: real, light: Light)
    requires Invariant(c) && (c.automatic || c.active.None?)
    ensures Invariant(Scheduled(c, true, now, light))
  {
    if c.active.Some? {
      var c' := Scheduled(c, true, now, light);
      if c'.timer.None? { assert c'.armed == {}; }
    }
  }

  lemma RestoreOverActiveLeaks(c: Controller, t: Transition, now: real, light: Light)
    requires Invariant(c) && c.automatic && c.active.Some?
    ensures var c' := Step(c, Restore(t, now, light)); c.timer.value in c'.armed && c'.timer != c.timer
  {
  }

  lemma RenewKeeps(c: Controller, t: Transition, written: real, now: real, light: Light)
    requires Invariant(c)
    ensures Invariant(Step(c, Renew(t, written, now, light)))
  {
    if c.automatic { UpdateKeeps(TimerCleared(c.(active := Some(Written(t, written)))), now, light); }
  }

  lemma RestoreKeeps(c: Controller, t: Transition, now: real, light: Light)
    requires Invariant(c) && !(c.automatic && c.active.Some?)
    ensures Invariant(Step(c, Restore(t, now, light)))
  {
    if c.automatic { UpdateKeeps(c.(active := Some(t)), now, light); }
  }

  lemma TimerKeeps(c: Controller, id: nat, now: real, light: Light)
    requires Invariant(c)
    ensures Invariant(Step(c, TimerFires(id, now, light)))
  {
    if id in c.armed {
      assert c.armed - {id} == {};
      UpdateKeeps(c.(armed := c.armed - {id}), now, light);
    }
  }

  lemma DelayKeeps(c: Controller, now: real, light: Light)
    requires Invariant(c)
    ensures Invariant(Step(c, DelayFires(now, light)))
  {
    if c.delayed > 0 { DryRunKeeps(c.(delayed := c.delayed - 1), now, light); }
  }

  /** Every step keeps the invariant, except that a curve restored from disk must not meet an active transition:
      the old timer would be forgotten but still fire. */
  lemma StepKeepsIff(c: Controller, e: Event)
    requires Invariant(c)
    ensures Invariant(Step(c, e)) <==> !(e.Restore? && c.automatic && c.active.Some?)
  {
    match e
    case Renew(t, written, now, light) => RenewKeeps(c, t, written, now, light);
    case Ask(_) =>
    case Restore(t, now, light) =>
      if c.automatic && c.active.Some? {
        RestoreOverActiveLeaks(c, t, now, light);
      } else {
        RestoreKeeps(c, t, now, light);
      }
    case DisableCommand => DisableRemovesAll(c); DisableRemovesAll(c.(log := c.log + [ManualDisable]));
    case DisableCall => DisableRemovesAll(c);
    case TimerFires(id, now, light) => TimerKeeps(c, id, now, light);
    case BrightnessChanged(_, now, light) => if c.listeners.brightness > 0 { DryRunKeeps(c, now, light); }
    case DelayFires(now, light) => DelayKeeps(c, now, light);
    case ManualWrite(_) => DisableRemovesAll(c);
  }

  // ---------------------------------------------------------------- every run

  ghost function Run(start: Controller, events: seq<Event>): Controller {
    if events == [] then start else Step(Run(start, events[..|events| - 1]), events[|events| - 1])
  }

  /** A restore only happens while nothing is active, as when an accessory starts. */
  ghost predicate RestoresFirst(start: Controller, events: seq<Event>) {
    forall k :: 0 <= k < |events| && events[k].Restore? ==> Run(start, events[..k]).active.None?
  }

  lemma {:induction false} RunKeeps(automatic: bool, customAdjustment: real, events: seq<Event>)
    requires RestoresFirst(Created(automatic, customAdjustment), events)
    ensures Invariant(Run(Created(automatic, customAdjustment), events))
  {
    if events != [] {
      var start := Created(automatic, customAdjustment);
      var before := events[..|events| - 1];
      forall k | 0 <= k < |before| && before[k].Restore? ensures Run(start, before[..k]).active.None? {
        assert before[..k] == events[..k] && events[k].Restore?;
      }
      RunKeeps(automatic, customAdjustment, before);
      assert events[..|events| - 1] == before;
      StepKeepsIff(Run(start, before), events[|events| - 1]);
    }
  }

  // ---------------------------------------------------------------- the rate of notifications

  ghost predicate NoDisableFrom(log: seq<Effect>, i: nat) {
    forall k :: i <= k < |log| ==> !log[k].Disabled?
  }

  /** Two batches with no disable in between are at least the threshold of the later one apart. */
  ghost predicate Spaced(log: seq<Effect>) {
    forall i, j :: 0 <= i < j < |log| && log[i].Batch? && log[j].Batch? && NoDisableFrom(log[..j], i) ==>
      log[j].now - log[i].now >= log[j].threshold
  }

  /** Every batch since the last disable lies before the moment the controller remembers. */
  ghost predicate Remembers(log: seq<Effect>, lastNotification: real) {
    && Spaced(log)
    && forall i :: 0 <= i < |log| && log[i].Batch? && NoDisableFrom(log, i) ==> log[i].now <= lastNotification
  }

  lemma LogOther(log: seq<Effect>, lastNotification: real, e: Effect)
    requires Remembers(log, lastNotification) && !e.Batch?
    ensures Remembers(log + [e], if e.Disabled? then 0.0 else lastNotification)
  {
    var log' := log + [e];
    forall i, j | 0 <= i < j < |log'| && log'[i].Batch? && log'[j].Batch? && NoDisableFrom(log'[..j], i)
      ensures log'[j].now - log'[i].now >= log'[j].threshold
    {
      assert log'[..j] == log[..j];
    }
    assert log'[|log|] == e;
    forall i | 0 <= i < |log'| && log'[i].Batch? && NoDisableFrom(log', i)
      ensures !e.Disabled? && log'[i].now <= lastNotification
    {
      forall k | i <= k < |log| ensures !log[k].Disabled? { assert log'[k] == log[k]; }
    }
  }

  lemma LogBatch(log: seq<Effect>, lastNotification: real, e: Effect)
    requires Remembers(log, lastNotification) && e.Batch? && e.now - lastNotification >= e.threshold
    ensures Remembers(log + [e], e.now)
  {
    var log' := log + [e];
    forall i, j | 0 <= i < j < |log'| && log'[i].Batch? && log'[j].Batch? && NoDisableFrom(log'[..j], i)
      ensures log'[j].now - log'[i].now >= log'[j].threshold
    {
      assert log'[..j] == log[..j];
      if j == |log| { assert log[..j] == log; }
    }
    forall i | 0 <= i < |log'| && log'[i].Batch? && NoDisableFrom(log', i) ensures log'[i].now <= e.now {
      forall k | i <= k < |log| ensures !log[k].Disabled? { assert log'[k] == log[k]; }
    }
  }

  ghost predicate Distanced(c: Controller) {
    Remembers(c.log, c.notified.at)
  }

  lemma DisableDistanced(c: Controller)
    requires Distanced(c)
    ensures Distanced(Disable(c))
  {
    LogOther(c.log, c.notified.at, Disabled);
  }

  lemma AppliedDistanced(c: Controller, dryRun: bool, t: Transition, now: real, temperature: Temperature, light: Light)
    requires Distanced(c)
    ensures Distanced(Applied(c, dryRun, t, now, temperature, light))
  {
    var c1 := Told(c, temperature, light);
    LogOther(c.log, c.notified.at, c1.log[|c.log|]);
    if light.handlerDisables {
      DisableDistanced(c1);
    } else if !dryRun && now - c.notified.at >= t.notifyThreshold {
      var c2 := Notified(c1, now, t.notifyThreshold, temperature, light);
      LogBatch(c1.log, c1.notified.at, c2.log[|c1.log|]);
    }
  }

  lemma ScheduledDistanced(c: Controller, dryRun: bool, now: real, light: Light)
    requires Distanced(c)
    ensures Distanced(Scheduled(c, dryRun, now, light))
  {
    if c.active.Some? {
      var t := c.active.value;
      var found := Lookup(t.curve, c.last, OffsetAt(t, now));
      var c' := Searched(c, dryRun, t, now, light);
      assert c'.log == c.log && c'.notified.at == c.notified.at;
      DisableDistanced(c');
      if found.Some? {
        var point := PointOf(t.curve, found, OffsetAt(t, now)).value;
        AppliedDistanced(c', dryRun, t, now, TemperatureAt(point, t, c.customAdjustment, light), light);
      }
    }
  }

  lemma UpdatedDistanced(c: Controller, now: real, light: Light)
    requires Distanced(c)
    ensures Distanced(Updated(c, now, light))
  {
    if c.automatic { ScheduledDistanced(c, false, now, light); } else { LogOther(c.log, c.notified.at, ManualUpdate); }
  }

  lemma StepDistanced(c: Controller, e: Event)
    requires Distanced(c)
    ensures Distanced(Step(c, e))
  {
    match e
    case Renew(t, written, now, light) =>
      UpdatedDistanced(TimerCleared(c.(active := Some(Written(t, written)))), now, light);
    case Ask(now) => if c.active.Some? { LogOther(c.log, c.notified.at, Asked(c, now).log[|c.log|]); }
    case Restore(t, now, light) => UpdatedDistanced(c.(active := Some(t)), now, light);
    case DisableCommand =>
      LogOther(c.log, c.notified.at, ManualDisable);
      DisableDistanced(c);
      DisableDistanced(c.(log := c.log + [ManualDisable]));
    case DisableCall => DisableDistanced(c);
    case TimerFires(id, now, light) => ScheduledDistanced(c.(armed := c.armed - {id}), false, now, light);
    case BrightnessChanged(_, now, light) => ScheduledDistanced(c, true, now, light);
    case DelayFires(now, light) =>
      if c.delayed > 0 { ScheduledDistanced(c.(delayed := c.delayed - 1), true, now, light); }
    case ManualWrite(_) => DisableDistanced(c);
  }

  /** On every run, whatever the clock does and however often the curve and its threshold are renewed, notifications
      keep their distance. */
  lemma {:induction false} NotificationsKeepDistance(automatic: bool, customAdjustment: real, events: seq<Event>)
    ensures Distanced(Run(Created(automatic, customAdjustment), events))
    ensures Spaced(Run(Created(automatic, customAdjustment), events).log)
  {
    if events != [] {
      NotificationsKeepDistance(automatic, customAdjustment, events[..|events| - 1]);
      StepDistanced(Run(Created(automatic, customAdjustment), events[..|events| - 1]), events[|events| - 1]);
    }
  }

  // ---------------------------------------------------------------- the object

  class AdaptiveLightingController {
    const automatic: bool
    const customTemperatureAdjustment: real
    var schedule: Schedule
    var activeTransition: Option<Transition>
    var didRunFirstInitializationStep: bool
    var knowsLight: bool
    var knowsHue: bool
    var knowsSaturation: bool
    var listeners: Listeners
    var updateTimeout: Option<nat>
    ghost var armed: set<nat>
    var nextTimer: nat
    ghost var delayed: nat
    var lastNotified: Notification   // when, and the three values told
    ghost var log: seq<Effect>

    /** The schedule object runs the curve of the active transition. */
    ghost predicate Valid()
      reads this, schedule
    {
      activeTransition.Some? ==> schedule.curve == activeTransition.value.curve
    }

    ghost function View(): Controller
      reads this, schedule
    {
      Controller(automatic, customTemperatureAdjustment, activeTransition, didRunFirstInitializationStep, knowsLight,
                 knowsHue, knowsSaturation, listeners, schedule.last, updateTimeout, armed, nextTimer, delayed,
                 lastNotified, log)
    }

    constructor (automatic: bool, customTemperatureAdjustment: real)
      ensures Valid() && fresh(schedule) && View() == Created(automatic, customTemperatureAdjustment)
    {
      this.automatic, this.customTemperatureAdjustment := automatic, customTemperatureAdjustment;
      activeTransition, didRunFirstInitializationStep := None, false;
      knowsLight, knowsHue, knowsSaturation, listeners := false, false, false, NO_LISTENERS;
      updateTimeout, armed, nextTimer, delayed := None, {}, 0, 0;
      lastNotified, log := NOTHING_TOLD, [];
      schedule := new Schedule([]);
    }

    method ClearUpdateTimeout()
      requires Valid()
      modifies this
      ensures Valid() && schedule == old(schedule) && View() == TimerCleared(old(View()))
    {
      if updateTimeout.Some? {
        armed := armed - {updateTimeout.value};
        updateTimeout := None;
      }
    }

    method RemoveListeners()
      requires activeTransition.Some?
      modifies this`listeners
      ensures listeners == old(Detached(View()))
    {
      var hue := if knowsHue && listeners.hue > 0 then listeners.hue - 1 else listeners.hue;
      var saturation := if knowsSaturation && listeners.saturation > 0 then listeners.saturation - 1
        else listeners.saturation;
      if knowsLight {
        listeners := Listeners(if listeners.temperature > 0 then listeners.temperature - 1 else 0,
                               if listeners.brightness > 0 then listeners.brightness - 1 else 0, hue, saturation);
      } else {
        listeners := listeners.(hue := hue, saturation := saturation);
      }
    }

    /** Back to the state of a fresh controller, apart from timers and listeners. */
    method ForgetTransition()
      modifies this, schedule
      ensures schedule == old(schedule) && schedule.curve == old(schedule.curve)
      ensures View()
        == old(View()).(active := None, knowsLight := false, knowsHue := false, knowsSaturation := false, last := None,
                        notified := NOTHING_TOLD, initialized := false)
    {
      activeTransition := None;
      knowsLight, knowsHue, knowsSaturation := false, false, false;
      schedule.last := None;
      lastNotified := NOTHING_TOLD;
      didRunFirstInitializationStep := false;
    }

    method DisableAdaptiveLighting()
      requires Valid()
      modifies this, schedule
      ensures Valid() && schedule == old(schedule) && View() == Disable(old(View()))
    {
      ClearUpdateTimeout();
      if activeTransition.Some? {
        RemoveListeners();
      }
      assert View() == TimerCleared(old(View())).(listeners := Detached(old(View())));
      ForgetTransition();
      log := log + [Disabled];
    }

    method HandleAdaptiveLightingEnabled(light: Light)
      requires Valid()
      modifies this
      ensures Valid() && schedule == old(schedule)
        && View() == Enable(old(View()), light).(initialized := old(didRunFirstInitializationStep))
    {
      knowsLight := true;
      listeners := listeners.(temperature := listeners.temperature + 1, brightness := listeners.brightness + 1);
      if light.hasHue {
        knowsHue := true;
        listeners := listeners.(hue := listeners.hue + 1);
      }
      if light.hasSaturation {
        knowsSaturation := true;
        listeners := listeners.(saturation := listeners.saturation + 1);
      }
    }

    /** What is new to those who were told `lastNotified`. */
    method ToldAt(now: real, threshold: Millis, temperature: Temperature, light: Light)
      returns (after: Notification, batch: Effect)
      ensures after
        == Notification(now, temperature,
                        News(knowsSaturation, lastNotified.saturation, light.saturation).GetOr(lastNotified.saturation),
                        News(knowsHue, lastNotified.hue, light.hue).GetOr(lastNotified.hue))
      ensures batch
        == Batch(now, threshold,
                 if temperature.None? || lastNotified.temperature != temperature then Some(temperature) else None,
                 News(knowsSaturation, lastNotified.saturation, light.saturation),
                 News(knowsHue, lastNotified.hue, light.hue))
    {
      after := lastNotified.(at := now);
      var told, saturation, hue := None, None, None;
      if temperature.None? || after.temperature != temperature {
        told := Some(temperature);
        after := after.(temperature := temperature);
      }
      if knowsSaturation && after.saturation != light.saturation {
        saturation := Some(light.saturation);
        after := after.(saturation := light.saturation);
      }
      if knowsHue && after.hue != light.hue {
        hue := Some(light.hue);
        after := after.(hue := light.hue);
      }
      batch := Batch(now, threshold, told, saturation, hue);
    }

    method SendEventNotifications(now: real, threshold: Millis, temperature: Temperature, light: Light)
      requires Valid()
      modifies this
      ensures Valid() && schedule == old(schedule)
        && View() == Notified(old(View()), now, threshold, temperature, light)
    {
      if now - lastNotified.at >= threshold {
        var after, batch := ToldAt(now, threshold, temperature, light);
        lastNotified, log := after, log + [batch];
      }
    }

    /** Attaches the listeners on the first update and asks for the current point. */
    method FindPoint(dryRun: bool, now: real, light: Light) returns (point: Option<Point>)
      requires Valid() && activeTransition.Some?
      modifies this, schedule
      ensures Valid() && schedule == old(schedule)
      ensures View() == Searched(old(View()), dryRun, old(activeTransition.value), now, light)
      ensures point
        == PointOf(schedule.curve,
                   Lookup(schedule.curve, old(schedule.last), OffsetAt(old(activeTransition.value), now)),
                   OffsetAt(old(activeTransition.value), now))
    {
      if !dryRun {
        updateTimeout := None;
      }
      if !didRunFirstInitializationStep {
        didRunFirstInitializationStep := true;
        HandleAdaptiveLightingEnabled(light);
      }
      point := schedule.CurrentPoint(OffsetAt(activeTransition.value, now));
    }

    /** Sets the temperature through the SET handler, which may turn Adaptive Lighting off. */
    method ApplyTemperature(dryRun: bool, now: real, temperature: Temperature, light: Light)
      requires Valid() && activeTransition.Some?
      modifies this, schedule
      ensures Valid() && schedule == old(schedule)
      ensures View() == Applied(old(View()), dryRun, old(activeTransition.value), now, temperature, light)
    {
      var t := activeTransition.value;
      log := log + [SetTemperature(temperature, Held(knowsSaturation, light.saturation), Held(knowsHue, light.hue))];
      if light.handlerDisables {
        DisableAdaptiveLighting();
        return;
      }
      if !dryRun {
        SendEventNotifications(now, t.notifyThreshold, temperature, light);
        ArmUpdateTimeout();
      }
    }

    method ArmUpdateTimeout()
      requires Valid()
      modifies this
      ensures Valid() && schedule == old(schedule) && View() == TimerArmed(old(View()))
    {
      armed := armed + {nextTimer};
      updateTimeout := Some(nextTimer);
      nextTimer := nextTimer + 1;
    }

    method ScheduleNextUpdate(dryRun: bool, now: real, light: Light)
      requires Valid() && activeTransition.Some?
      modifies this, schedule
      ensures Valid() && schedule == old(schedule) && View() == Scheduled(old(View()), dryRun, now, light)
    {
      ghost var before := View();
      var t := activeTransition.value;
      var point := FindPoint(dryRun, now, light);
      ghost var searched := View();
      assert searched == Searched(before, dryRun, t, now, light);
      if point.None? {
        if !dryRun {
          DisableAdaptiveLighting();
        }
        return;
      }
      ApplyTemperature(dryRun, now, TemperatureAt(point.value, t, customTemperatureAdjustment, light), light);
    }

    /** What a user gets from the search, and what it leaves behind. */
    method GetCurrentTransitionPoint(now: real) returns (point: Option<Point>)
      requires Valid() && activeTransition.Some?
      modifies this, schedule
      ensures Valid() && schedule == old(schedule) && View() == Step(old(View()), Ask(now))
      ensures log == old(log) + [Answered(point)]
    {
      point := schedule.CurrentPoint(OffsetAt(activeTransition.value, now));
      log := log + [Answered(point)];
    }

    method HandleActiveTransitionUpdated(now: real, light: Light)
      requires Valid() && activeTransition.Some?
      modifies this, schedule
      ensures Valid() && schedule == old(schedule) && View() == Updated(old(View()), now, light)
    {
      if automatic {
        ScheduleNextUpdate(false, now, light);
      } else {
        log := log + [ManualUpdate];
      }
    }

    /** `written` is the clock when the request is decoded, `now` when the update it leads to searches. */
    method HandleUpdateTransition(t: Transition, written: real, now: real, light: Light)
      requires Valid()
      modifies this, schedule
      ensures Valid() && schedule == old(schedule) && View() == Step(old(View()), Renew(t, written, now, light))
    {
      ghost var before := View();
      var timeMillisOffset := written - t.start;
      var transition := t.(timeOffset := timeMillisOffset);
      activeTransition := Some(transition);
      schedule.curve := t.curve;
      assert View() == before.(active := Some(transition));
      ClearUpdateTimeout();
      assert View() == TimerCleared(before.(active := Some(transition)));
      HandleActiveTransitionUpdated(now, light);
    }

    method Deserialize(t: Transition, now: real, light: Light)
      requires Valid()
      modifies this, schedule
      ensures Valid() && schedule == old(schedule) && View() == Step(old(View()), Restore(t, now, light))
    {
      activeTransition := Some(t);
      schedule.curve := t.curve;
      HandleActiveTransitionUpdated(now, light);
    }

    method HandleAdaptiveLightingDisabled()
      requires Valid()
      modifies this, schedule
      ensures Valid() && schedule == old(schedule) && View() == Step(old(View()), DisableCommand)
    {
      if !automatic && activeTransition.Some? {
        log := log + [ManualDisable];
      }
      DisableAdaptiveLighting();
    }

    /** An update timer goes off. */
    method OnUpdateTimeout(ghost timer: nat, now: real, light: Light)
      requires Valid() && activeTransition.Some? && timer in armed
      modifies this, schedule
      ensures Valid() && schedule == old(schedule) && View() == Step(old(View()), TimerFires(timer, now, light))
    {
      armed := armed - {timer};
      ScheduleNextUpdate(false, now, light);
    }

    /** The brightness listener; a read postpones the update by a second. */
    method HandleAdjustmentFactorChanged(byRead: bool, now: real, light: Light)
      requires Valid() && activeTransition.Some? && listeners.brightness > 0
      modifies this, schedule
      ensures Valid() && schedule == old(schedule) && View() == Step(old(View()), BrightnessChanged(byRead, now, light))
    {
      if byRead {
        delayed := delayed + 1;
      } else {
        ScheduleNextUpdate(true, now, light);
      }
    }

    /** A write to the color by anyone but the controller ends the transition. */
    method HandleCharacteristicManualWritten(watched: Watched)
      requires Valid()
      requires match watched
        case TemperatureWritten => listeners.temperature > 0
        case HueWritten => listeners.hue > 0
        case SaturationWritten => listeners.saturation > 0
      modifies this, schedule
      ensures Valid() && schedule == old(schedule) && View() == Step(old(View()), ManualWrite(watched))
    {
      DisableAdaptiveLighting();
    }

    method OnDelay(now: real, light: Light)
      requires Valid() && delayed > 0
      modifies this, schedule
      ensures Valid() && schedule == old(schedule) && View() == Step(old(View()), DelayFires(now, light))
    {
      delayed := delayed - 1;
      assert View() == old(View()).(delayed := old(delayed) - 1);
      if activeTransition.None? {
        return;
      }
      ScheduleNextUpdate(true, now, light);
    }
  }
}
