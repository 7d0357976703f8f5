/** What an Adaptive Lighting controller tells the light, the subscribers and the plugin, event by event, and what
    ends a transition. */
module LightingEffects {
  import opened Reals
  import opened Wrappers
  import opened TransitionCurve
  import opened AdaptiveLighting
  import opened RenewedTransitions

  // ---------------------------------------------------------------- the temperature

  /** Brightness inside the range the transition declares. */
  function Capped(t: Transition, brightness: real): real {
    if brightness > t.maxBrightness && t.maxBrightness >= t.minBrightness then t.maxBrightness
    else if brightness < t.minBrightness || t.maxBrightness < t.minBrightness then t.minBrightness
    else brightness
  }

  /** The light is told the whole number nearest to the scheduled temperature with its adjustment for the brightness,
      raised by the user's own adjustment and cut at the bounds of the light. */
  lemma TemperatureIsNearest(value: Value, t: Transition, customAdjustment: real, light: Light) returns (n: int)
    requires light.minTemperature <= light.maxTemperature
    ensures var exact := value.temperature + value.adjustment * Capped(t, light.brightness);
      exact - 0.5 < n as real <= exact + 0.5
    ensures var wanted := n as real + customAdjustment;
      TemperatureFor(value, t, customAdjustment, light) ==
        if wanted < light.minTemperature then light.minTemperature
        else if wanted > light.maxTemperature then light.maxTemperature
        else wanted
  {
    var brightness := Capped(t, light.brightness);
    assert Clamp(t.minBrightness, t.maxBrightness, light.brightness) == brightness;
    n := NearestWhole(Compensated(value, brightness));
    ShownIs(Compensated(value, brightness), n, customAdjustment, light);
  }

  lemma NearestWhole(x: real) returns (n: int)
    ensures x - 0.5 < n as real <= x + 0.5 && Round(x) == n as real
  {
    n := (x + 0.5).Floor;
  }

  lemma ShownIs(x: real, n: int, customAdjustment: real, light: Light)
    requires Round(x) == n as real && light.minTemperature <= light.maxTemperature
    ensures var wanted := n as real + customAdjustment;
      Shown(x, customAdjustment, light) ==
        if wanted < light.minTemperature then light.minTemperature
        else if wanted > light.maxTemperature then light.maxTemperature
        else wanted
  {
  }

  /** The offset into a written curve is the time since it was written. */
  lemma OffsetAfterWrite(t: Transition, written: real, now: real)
    ensures OffsetAt(Written(t, written), now) == now - written
  {
  }

  // ---------------------------------------------------------------- what is told

  /** What the subscribers were told last, since the mode was last disabled. */
  function LastTold(log: seq<Effect>): Notification {
    if log == [] then NOTHING_TOLD
    else
      var before := LastTold(log[..|log| - 1]);
      match log[|log| - 1]
      case Disabled => NOTHING_TOLD
      case Batch(now, _, temperature, saturation, hue) =>
        Notification(now, temperature.GetOr(before.temperature), saturation.GetOr(before.saturation),
                     hue.GetOr(before.hue))
      case _ => before
  }

  function Changed<T(==)>(before: T, now: T): Option<T> {
    if before != now then Some(now) else None
  }

  function If<T>(condition: bool, x: Option<T>): Option<T> {
    if condition then x else None
  }

  /** Characteristics the light has are held from the first update on. */
  predicate HoldsHue(u: Update) {
    u.before.knowsHue || (!u.before.initialized && u.light.hasHue)
  }

  predicate HoldsSaturation(u: Update) {
    u.before.knowsSaturation || (!u.before.initialized && u.light.hasSaturation)
  }

  /** A notification goes out when the threshold has passed, and says what differs from the one before. */
  function NotificationOf(u: Update, t: Transition, told: Notification, temperature: Temperature): seq<Effect> {
    if u.now - told.at < t.notifyThreshold then []
    else
      [Batch(u.now, t.notifyThreshold,
             if temperature.None? then Some(temperature) else Changed(told.temperature, temperature),
             If(HoldsSaturation(u), Changed(told.saturation, u.light.saturation)),
             If(HoldsHue(u), Changed(told.hue, u.light.hue)))]
  }

  /** Without a point the transition is over. Otherwise the light is told its color; if its handler leaves the mode on
      and this is no dry run, the subscribers may be notified. */
  function EffectsOf(u: Update, point: Option<Point>, told: Notification): seq<Effect>
    requires u.before.active.Some?
  {
    var (c, t) := (u.before, u.before.active.value);
    match point
    case None => if u.dryRun then [] else [Disabled]
    case Some(p) =>
      var temperature := TemperatureAt(p, t, c.customAdjustment, u.light);
      [SetTemperature(temperature, If(HoldsSaturation(u), Some(u.light.saturation)),
                      If(HoldsHue(u), Some(u.light.hue)))]
      + (if u.light.handlerDisables then [Disabled]
         else if u.dryRun then []
         else NotificationOf(u, t, told, temperature))
  }

  ghost function PointFound(u: Update): Option<Point>
    requires u.before.active.Some?
  {
    var (c, t) := (u.before, u.before.active.value);
    PointOf(t.curve, Lookup(t.curve, c.last, OffsetAt(t, u.now)), OffsetAt(t, u.now))
  }

  lemma UpdateTells(u: Update)
    requires u.before.active.Some?
    ensures Scheduled(u.before, u.dryRun, u.now, u.light).log
      == u.before.log + EffectsOf(u, PointFound(u), u.before.notified)
  {
    if PointFound(u).Some? { FoundTells(u); } else { NotFoundTells(u); }
  }

  lemma NotFoundTells(u: Update)
    requires u.before.active.Some? && PointFound(u).None?
    ensures Scheduled(u.before, u.dryRun, u.now, u.light).log
      == u.before.log + if u.dryRun then [] else [Disabled]
  {
    assert u.before.log + [] == u.before.log;
  }

  lemma FoundTells(u: Update)
    requires u.before.active.Some? && PointFound(u).Some?
    ensures Scheduled(u.before, u.dryRun, u.now, u.light).log
      == u.before.log + EffectsOf(u, PointFound(u), u.before.notified)
  {
    var (c, t) := (u.before, u.before.active.value);
    var c' := Searched(c, u.dryRun, t, u.now, u.light);
    SearchedHolds(u);
    AppliedTells(c', u, t, TemperatureAt(PointFound(u).value, t, c.customAdjustment, u.light));
  }

  lemma SearchedHolds(u: Update)
    requires u.before.active.Some?
    ensures var c' := Searched(u.before, u.dryRun, u.before.active.value, u.now, u.light);
      && c'.knowsHue == HoldsHue(u) && c'.knowsSaturation == HoldsSaturation(u)
      && c'.log == u.before.log && c'.notified == u.before.notified
  {
  }

  lemma AppliedTells(c: Controller, u: Update, t: Transition, temperature: Temperature)
    requires c.knowsHue == HoldsHue(u) && c.knowsSaturation == HoldsSaturation(u)
    ensures Applied(c, u.dryRun, t, u.now, temperature, u.light).log == c.log
      + [SetTemperature(temperature, If(HoldsSaturation(u), Some(u.light.saturation)),
                        If(HoldsHue(u), Some(u.light.hue)))]
      + (if u.light.handlerDisables then [Disabled]
         else if u.dryRun then []
         else NotificationOf(u, t, c.notified, temperature))
  {
  }

  /** What an event that makes no update tells. */
  ghost function OtherEffects(c: Controller, e: Event): seq<Effect> {
    match e
    case Renew(_, _, _, _) => [ManualUpdate]
    case Restore(_, _, _) => [ManualUpdate]
    case DisableCommand => (if !c.automatic && c.active.Some? then [ManualDisable] else []) + [Disabled]
    case DisableCall => [Disabled]
    case ManualWrite(w) => if Attached(c, w) > 0 then [Disabled] else []
    case Ask(now) =>
      if c.active.None? then []
      else
        var t := c.active.value;
        [Answered(PointOf(t.curve, Lookup(t.curve, c.last, OffsetAt(t, now)), OffsetAt(t, now)))]
    case _ => []
  }

  function Attached(c: Controller, w: Watched): nat {
    match w
    case TemperatureWritten => c.listeners.temperature
    case HueWritten => c.listeners.hue
    case SaturationWritten => c.listeners.saturation
  }

  /** Everything an event tells. */
  ghost function Effects(c: Controller, e: Event, told: Notification): seq<Effect> {
    var update := UpdateOf(c, e);
    if update.None? then OtherEffects(c, e)
    else if update.value.before.active.None? then []
    else EffectsOf(update.value, PointFound(update.value), told)
  }

  lemma UpdateIsMade(c: Controller, e: Event)
    requires UpdateOf(c, e).Some?
    ensures var u := UpdateOf(c, e).value;
      && Step(c, e) == Scheduled(u.before, u.dryRun, u.now, u.light)
      && u.before.log == c.log && u.before.notified == c.notified
  {
  }

  lemma OthersTell(c: Controller, e: Event)
    requires UpdateOf(c, e).None?
    ensures Step(c, e).log == c.log + OtherEffects(c, e)
  {
    assert c.log + [] == c.log;
  }

  lemma StepTells(c: Controller, e: Event)
    ensures Step(c, e).log == c.log + Effects(c, e, c.notified)
  {
    if UpdateOf(c, e).Some? {
      UpdateIsMade(c, e);
      var u := UpdateOf(c, e).value;
      if u.before.active.Some? { UpdateTells(u); } else { assert c.log + [] == c.log; }
    } else {
      OthersTell(c, e);
    }
  }

  lemma LastToldOf(log: seq<Effect>, effect: Effect)
    ensures LastTold(log + [effect]) ==
      match effect
      case Disabled => NOTHING_TOLD
      case Batch(now, _, temperature, saturation, hue) =>
        Notification(now, temperature.GetOr(LastTold(log).temperature), saturation.GetOr(LastTold(log).saturation),
                     hue.GetOr(LastTold(log).hue))
      case _ => LastTold(log)
  {
    assert (log + [effect])[..|log|] == log;
  }

  /** The controller remembers what it told last. */
  ghost predicate Remembers(c: Controller) {
    c.notified == LastTold(c.log)
  }

  lemma DisableRemembers(c: Controller)
    ensures Remembers(Disable(c))
  {
    LastToldOf(c.log, Disabled);
  }

  lemma ToldRemembers(c: Controller, temperature: Temperature, light: Light)
    requires Remembers(c)
    ensures Remembers(Told(c, temperature, light))
  {
    var c' := Told(c, temperature, light);
    LastToldOf(c.log, c'.log[|c.log|]);
  }

  lemma NotifiedRemembers(c: Controller, now: real, threshold: Millis, temperature: Temperature, light: Light)
    requires Remembers(c)
    ensures Remembers(Notified(c, now, threshold, temperature, light))
  {
    var c' := Notified(c, now, threshold, temperature, light);
    if c' != c { LastToldOf(c.log, c'.log[|c.log|]); }
  }

  lemma AppliedRemembers(c: Controller, dryRun: bool, t: Transition, now: real, temperature: Temperature, light: Light)
    requires Remembers(c)
    ensures Remembers(Applied(c, dryRun, t, now, temperature, light))
  {
    var c1 := Told(c, temperature, light);
    ToldRemembers(c, temperature, light);
    DisableRemembers(c1);
    NotifiedRemembers(c1, now, t.notifyThreshold, temperature, light);
  }

  lemma ScheduledRemembers(u: Update)
    requires Remembers(u.before)
    ensures Remembers(Scheduled(u.before, u.dryRun, u.now, u.light))
  {
    if u.before.active.Some? {
      var (c, t) := (u.before, u.before.active.value);
      var c' := Searched(c, u.dryRun, t, u.now, u.light);
      SearchedHolds(u);
      DisableRemembers(c');
      if PointFound(u).Some? {
        var temperature := TemperatureAt(PointFound(u).value, t, c.customAdjustment, u.light);
        AppliedRemembers(c', u.dryRun, t, u.now, temperature, u.light);
      }
    }
  }

  lemma StepRemembers(c: Controller, e: Event)
    requires Remembers(c)
    ensures Remembers(Step(c, e))
  {
    if UpdateOf(c, e).Some? {
      UpdateIsMade(c, e);
      ScheduledRemembers(UpdateOf(c, e).value);
    } else {
      OthersRemember(c, e);
    }
  }

  lemma OthersRemember(c: Controller, e: Event)
    requires Remembers(c) && UpdateOf(c, e).None?
    ensures Remembers(Step(c, e))
  {
    match e
    case Renew(_, _, _, _) => LastToldOf(c.log, ManualUpdate);
    case Restore(_, _, _) => LastToldOf(c.log, ManualUpdate);
    case Ask(now) => if c.active.Some? { LastToldOf(c.log, Asked(c, now).log[|c.log|]); }
    case DisableCommand => DisableRemembers(c); DisableRemembers(c.(log := c.log + [ManualDisable]));
    case DisableCall => DisableRemembers(c);
    case ManualWrite(_) => DisableRemembers(c);
    case _ =>
  }

  /** On every run, each event tells the light, the subscribers and the plugin exactly what the table above says, with
      what was told last read off what was told. */
  lemma {:induction false} EveryEventTells(automatic: bool, customAdjustment: real, events: seq<Event>, e: Event)
    ensures var start := Created(automatic, customAdjustment);
      var c := Run(start, events);
      && Remembers(c)
      && Run(start, events + [e]).log == c.log + Effects(c, e, LastTold(c.log))
  {
    var start := Created(automatic, customAdjustment);
    if events != [] {
      var earlier := events[..|events| - 1];
      EveryEventTells(automatic, customAdjustment, earlier, e);
      StepRemembers(Run(start, earlier), events[|events| - 1]);
    }
    RunAppended(start, events, e);
    StepTells(Run(start, events), e);
  }

  // ---------------------------------------------------------------- what ends a transition

  /** A transition ends when the user or the plugin disables the mode, when a characteristic the controller listens to
      is written by hand, when an update that is no dry run finds no point any more, and when the handler of the light
      disables the mode during an update. */
  lemma EndsIff(c: Controller, e: Event)
    requires c.active.Some?
    ensures Step(c, e).active.None? <==>
      match UpdateOf(c, e)
      case Some(u) => if PointFound(u).None? then !u.dryRun else u.light.handlerDisables
      case None => e.DisableCommand? || e.DisableCall? || (e.ManualWrite? && Attached(c, e.watched) > 0)
  {
    if UpdateOf(c, e).Some? {
      UpdateIsMade(c, e);
      UpdateEndsIff(UpdateOf(c, e).value);
    }
  }

  lemma UpdateEndsIff(u: Update)
    requires u.before.active.Some?
    ensures Scheduled(u.before, u.dryRun, u.now, u.light).active.None? <==>
      if PointFound(u).None? then !u.dryRun else u.light.handlerDisables
  {
    if PointFound(u).Some? {
      var (c, t) := (u.before, u.before.active.value);
      var temperature := TemperatureAt(PointFound(u).value, t, c.customAdjustment, u.light);
      AppliedEndsIff(Searched(c, u.dryRun, t, u.now, u.light), u, t, temperature);
    }
  }

  lemma AppliedEndsIff(c: Controller, u: Update, t: Transition, temperature: Temperature)
    requires c.active.Some?
    ensures Applied(c, u.dryRun, t, u.now, temperature, u.light).active.None? <==> u.light.handlerDisables
  {
  }

  /** The controller listens while a transition is active in automatic mode, to hue and saturation if it holds them,
      so a manual write disables the mode exactly then. */
  lemma ListensIff(c: Controller, w: Watched)
    requires Invariant(c)
    ensures Attached(c, w) > 0 <==>
      && c.automatic && c.active.Some?
      && (w.HueWritten? ==> c.knowsHue)
      && (w.SaturationWritten? ==> c.knowsSaturation)
  {
  }

  /** It holds the hue if the light had one at the first update of the transitions that run now. */
  lemma HoldsHueIff(c: Controller, e: Event)
    requires UpdateOf(c, e).Some?
    ensures var u := UpdateOf(c, e).value;
      Step(c, e).active.Some? ==>
        && Step(c, e).knowsHue == (c.knowsHue || (!c.initialized && u.light.hasHue))
        && Step(c, e).knowsSaturation == (c.knowsSaturation || (!c.initialized && u.light.hasSaturation))
  {
    UpdateIsMade(c, e);
    var u := UpdateOf(c, e).value;
    if u.before.active.Some? && Step(c, e).active.Some? { UpdateHolds(u); }
  }

  lemma UpdateHolds(u: Update)
    requires u.before.active.Some? && Scheduled(u.before, u.dryRun, u.now, u.light).active.Some?
    ensures var c' := Scheduled(u.before, u.dryRun, u.now, u.light);
      c'.knowsHue == HoldsHue(u) && c'.knowsSaturation == HoldsSaturation(u)
  {
    SearchedHolds(u);
    if PointFound(u).Some? {
      var (c, t) := (u.before, u.before.active.value);
      var temperature := TemperatureAt(PointFound(u).value, t, c.customAdjustment, u.light);
      AppliedHolds(Searched(c, u.dryRun, t, u.now, u.light), u, t, temperature);
    }
  }

  lemma AppliedHolds(c: Controller, u: Update, t: Transition, temperature: Temperature)
    ensures var c' := Applied(c, u.dryRun, t, u.now, temperature, u.light);
      && c'.delayed == c.delayed
      && (c'.active.Some? ==> c'.knowsHue == c.knowsHue && c'.knowsSaturation == c.knowsSaturation)
  {
    var c1 := Told(c, temperature, u.light);
    assert c1 == c.(log := c1.log);
    NotifiedHolds(c1, u.now, t.notifyThreshold, temperature, u.light);
  }

  lemma NotifiedHolds(c: Controller, now: real, threshold: Millis, temperature: Temperature, light: Light)
    ensures var c' := Notified(c, now, threshold, temperature, light); c' == c.(notified := c'.notified, log := c'.log)
  {
  }

  /** A brightness read waits for its second timer, which then makes one dry run. */
  lemma DelaysAreCounted(c: Controller, e: Event)
    requires e.BrightnessChanged? || e.DelayFires?
    ensures Step(c, e).delayed ==
      if e.BrightnessChanged? && e.byRead && c.listeners.brightness > 0 then c.delayed + 1
      else if e.DelayFires? && c.delayed > 0 then c.delayed - 1
      else c.delayed
  {
    if UpdateOf(c, e).Some? {
      UpdateIsMade(c, e);
      DelayStays(UpdateOf(c, e).value);
    }
  }

  lemma DelayStays(u: Update)
    ensures Scheduled(u.before, u.dryRun, u.now, u.light).delayed == u.before.delayed
  {
    if u.before.active.Some? && PointFound(u).Some? {
      var (c, t) := (u.before, u.before.active.value);
      var temperature := TemperatureAt(PointFound(u).value, t, c.customAdjustment, u.light);
      AppliedHolds(Searched(c, u.dryRun, t, u.now, u.light), u, t, temperature);
    }
  }
}
