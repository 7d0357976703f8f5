/** The saved hit of the curve search over the life of an Adaptive Lighting controller. A written curve replaces the
    active transition but keeps the saved hit, so what follows depends on the search that is made next. */
module RenewedTransitions {
  import opened Wrappers
  import opened TransitionCurve
  import opened AdaptiveLighting

  ghost predicate CacheSound(c: Controller) {
    if c.active.Some? then Sound(c.active.value.curve, c.last) else c.last == None
  }

  /** What the wire can carry: nothing is negative, and every entry after the first is reached by a transition. */
  ghost predicate FromWire(curve: Curve) {
    Ramped(curve) && (curve != [] ==> curve[0].transitionTime >= 0.0)
  }

  lemma {:induction false} StartNotNegative(curve: Curve, i: nat)
    requires FromWire(curve) && i <= |curve|
    ensures Start(curve, i) >= 0.0
  {
    if i > 0 { StartNotNegative(curve, i - 1); }
  }

  // ---------------------------------------------------------------- one step

  /** The search of an update trusts a saved hit of another curve, finds a segment and goes on from there. */
  ghost predicate Misleads(last: Option<Saved>, t: Transition, now: real, light: Light) {
    && !light.handlerDisables
    && last.Some? && !Sound(t.curve, last)
    && !Restarts(t.curve, last, OffsetAt(t, now))
    && Lookup(t.curve, last, OffsetAt(t, now)).Some?
  }

  /** A curve that comes over a saved hit of another one, and is not searched at once or is searched with that hit. */
  ghost predicate Spoils(c: Controller, e: Event) {
    match e
    case Renew(t, written, now, light) =>
      if c.automatic then Misleads(c.last, Written(t, written), now, light) else !Sound(t.curve, c.last)
    case Restore(t, now, light) => if c.automatic then Misleads(c.last, t, now, light) else !Sound(t.curve, c.last)
    case _ => false
  }

  lemma DisabledIsSound(c: Controller)
    ensures CacheSound(Disable(c))
  {
  }

  lemma AppliedIsSoundIff(c: Controller, dryRun: bool, t: Transition, now: real, temperature: Temperature, light: Light)
    requires c.active.Some?
    ensures CacheSound(Applied(c, dryRun, t, now, temperature, light)) <==> light.handlerDisables || CacheSound(c)
  {
  }

  lemma ScheduledIsSoundIff(c: Controller, dryRun: bool, now: real, light: Light)
    requires c.active.Some?
    ensures CacheSound(Scheduled(c, dryRun, now, light)) <==> !Misleads(c.last, c.active.value, now, light)
  {
    var t := c.active.value;
    var found := Lookup(t.curve, c.last, OffsetAt(t, now));
    var c' := Searched(c, dryRun, t, now, light);
    if found.Some? {
      var temperature := TemperatureAt(PointOf(t.curve, found, OffsetAt(t, now)).value, t, c.customAdjustment, light);
      AppliedIsSoundIff(c', dryRun, t, now, temperature, light);
    } else {
      DisabledIsSound(c');
    }
  }

  lemma ReplacedIsSoundIff(c: Controller, t: Transition, now: real, light: Light)
    requires c.active == Some(t)
    ensures CacheSound(Updated(c, now, light))
      <==> if c.automatic then !Misleads(c.last, t, now, light) else Sound(t.curve, c.last)
  {
    if c.automatic { ScheduledIsSoundIff(c, false, now, light); }
  }

  lemma UpdatedIsSound(c: Controller, dryRun: bool, now: real, light: Light)
    requires CacheSound(c)
    ensures CacheSound(Scheduled(c, dryRun, now, light))
  {
    if c.active.Some? { ScheduledIsSoundIff(c, dryRun, now, light); }
  }

  lemma AskedIsSound(c: Controller, now: real)
    requires CacheSound(c)
    ensures CacheSound(Asked(c, now))
  {
    if c.active.Some? { SearchLeavesSoundCache(c.active.value.curve, c.last, OffsetAt(c.active.value, now)); }
  }

  lemma UpdateIsSound(c: Controller, e: Event)
    requires CacheSound(c) && (e.TimerFires? || e.BrightnessChanged? || e.DelayFires?)
    ensures CacheSound(Step(c, e))
  {
    match e
    case TimerFires(id, now, light) => UpdatedIsSound(c.(armed := c.armed - {id}), false, now, light);
    case BrightnessChanged(_, now, light) => UpdatedIsSound(c, true, now, light);
    case DelayFires(now, light) => if c.delayed > 0 { UpdatedIsSound(c.(delayed := c.delayed - 1), true, now, light); }
  }

  /** Every step leaves a hit of the active curve behind, unless a new curve comes over a hit of another one and the
      search made right then, if any, trusts that hit. */
  lemma CacheStaysSoundIff(c: Controller, e: Event)
    requires CacheSound(c)
    ensures CacheSound(Step(c, e)) <==> !Spoils(c, e)
  {
    match e
    case Renew(t, written, now, light) =>
      ReplacedIsSoundIff(TimerCleared(c.(active := Some(Written(t, written)))), Written(t, written), now, light);
    case Restore(t, now, light) => ReplacedIsSoundIff(c.(active := Some(t)), t, now, light);
    case TimerFires(_, _, _) => UpdateIsSound(c, e);
    case BrightnessChanged(_, _, _) => UpdateIsSound(c, e);
    case DelayFires(_, _) => UpdateIsSound(c, e);
    case Ask(now) => AskedIsSound(c, now);
    case DisableCommand => DisabledIsSound(c); DisabledIsSound(c.(log := c.log + [ManualDisable]));
    case DisableCall => DisabledIsSound(c);
    case ManualWrite(_) => DisabledIsSound(c);
  }

  // ---------------------------------------------------------------- renewals in automatic mode

  /** The request is handled in less time than any transition of its curve takes. */
  ghost predicate Prompt(t: Transition, written: real, now: real) {
    forall k :: 1 <= k < |t.curve| ==> now - written < t.curve[k].transitionTime
  }

  /** The search made while the request is handled lies at the very start of the renewed curve. There a hit of the old
      curve is noticed, is right by chance, or lies past the end. */
  lemma PromptRenewalFinds(c: Controller, t: Transition, written: real, now: real)
    requires CacheSound(c) && (c.active.Some? ==> FromWire(c.active.value.curve))
    requires FromWire(t.curve) && Prompt(t, written, now)
    ensures var offset := OffsetAt(Written(t, written), now);
      || Sound(t.curve, c.last)
      || Restarts(t.curve, c.last, offset)
      || (c.last.Some? && c.last.value.curveIndex + 1 >= |t.curve| && Lookup(t.curve, c.last, offset) == None)
  {
    if c.last.Some? {
      var i := c.last.value.curveIndex;
      StartNotNegative(c.active.value.curve, i);
      assert i == 0 ==> Start(t.curve, 0) == Start(c.active.value.curve, 0) == 0.0;
    }
  }

  /** Curves come from the wire, requests are handled promptly, and a restore meets no active transition. */
  ghost predicate Usual(c: Controller, e: Event) {
    match e
    case Renew(t, written, now, _) => FromWire(t.curve) && Prompt(t, written, now)
    case Restore(t, _, _) => FromWire(t.curve) && c.active.None?
    case _ => true
  }

  ghost predicate UsualRun(start: Controller, events: seq<Event>) {
    forall k :: 0 <= k < |events| ==> Usual(Run(start, events[..k]), events[k])
  }

  ghost predicate Follows(c: Controller) {
    CacheSound(c) && (c.active.Some? ==> FromWire(c.active.value.curve))
  }

  /** An update changes neither the mode nor the transition, unless it ends it. */
  ghost predicate Continues(c: Controller, c': Controller) {
    && c'.automatic == c.automatic && c'.customAdjustment == c.customAdjustment
    && (c'.active == c.active || c'.active.None?)
  }

  lemma AppliedContinues(c: Controller, dryRun: bool, t: Transition, now: real, temperature: Temperature, light: Light)
    ensures Continues(c, Applied(c, dryRun, t, now, temperature, light))
  {
  }

  lemma ScheduledContinues(c: Controller, dryRun: bool, now: real, light: Light)
    ensures Continues(c, Scheduled(c, dryRun, now, light))
  {
    if c.active.Some? {
      var t := c.active.value;
      var found := Lookup(t.curve, c.last, OffsetAt(t, now));
      if found.Some? {
        var temperature := TemperatureAt(PointOf(t.curve, found, OffsetAt(t, now)).value, t, c.customAdjustment, light);
        AppliedContinues(Searched(c, dryRun, t, now, light), dryRun, t, now, temperature, light);
      }
    }
  }

  lemma UpdatedContinues(c: Controller, now: real, light: Light)
    ensures Continues(c, Updated(c, now, light))
  {
    if c.automatic { ScheduledContinues(c, false, now, light); }
  }

  lemma DisableContinues(c: Controller)
    ensures Continues(c, Disable(c))
  {
  }

  lemma UpdateContinues(c: Controller, e: Event)
    requires e.TimerFires? || e.BrightnessChanged? || e.DelayFires?
    ensures Continues(c, Step(c, e))
  {
    match e
    case TimerFires(id, now, light) => ScheduledContinues(c.(armed := c.armed - {id}), false, now, light);
    case BrightnessChanged(_, now, light) => ScheduledContinues(c, true, now, light);
    case DelayFires(now, light) =>
      if c.delayed > 0 { ScheduledContinues(c.(delayed := c.delayed - 1), true, now, light); }
  }

  lemma StepContinues(c: Controller, e: Event)
    ensures match e
      case Renew(t, written, _, _) => Continues(c.(active := Some(Written(t, written))), Step(c, e))
      case Restore(t, _, _) => Continues(c.(active := Some(t)), Step(c, e))
      case _ => Continues(c, Step(c, e))
  {
    match e
    case Renew(t, written, now, light) =>
      UpdatedContinues(TimerCleared(c.(active := Some(Written(t, written)))), now, light);
    case Restore(t, now, light) => UpdatedContinues(c.(active := Some(t)), now, light);
    case TimerFires(_, _, _) => UpdateContinues(c, e);
    case BrightnessChanged(_, _, _) => UpdateContinues(c, e);
    case DelayFires(_, _) => UpdateContinues(c, e);
    case DisableCommand => DisableContinues(c); DisableContinues(c.(log := c.log + [ManualDisable]));
    case DisableCall => DisableContinues(c);
    case ManualWrite(_) => DisableContinues(c);
    case Ask(_) =>
  }

  lemma UsualStepFollows(c: Controller, e: Event)
    requires c.automatic && Follows(c) && Usual(c, e)
    ensures Follows(Step(c, e))
  {
    CacheStaysSoundIff(c, e);
    StepContinues(c, e);
    if e.Renew? { PromptRenewalFinds(c, e.transition, e.written, e.now); }
  }

  lemma UsualRunPrefix(start: Controller, events: seq<Event>, e: Event)
    requires UsualRun(start, events + [e])
    ensures UsualRun(start, events) && Usual(Run(start, events), e)
    ensures Run(start, events + [e]) == Step(Run(start, events), e)
  {
    var all := events + [e];
    assert all[..|events|] == events && all[|events|] == e;
    forall k | 0 <= k < |events| ensures Usual(Run(start, events[..k]), events[k]) {
      assert all[..k] == events[..k] && all[k] == events[k];
    }
  }

  lemma {:induction false} ModeStays(start: Controller, events: seq<Event>)
    ensures Run(start, events).automatic == start.automatic
      && Run(start, events).customAdjustment == start.customAdjustment
  {
    if events != [] {
      ModeStays(start, events[..|events| - 1]);
      StepContinues(Run(start, events[..|events| - 1]), events[|events| - 1]);
    }
  }

  /** In automatic mode the saved hit is one of the active curve on every run, renewals included: the update made
      while a renewal is handled repairs it. */
  lemma {:induction false} CacheStaysSound(customAdjustment: real, events: seq<Event>)
    requires UsualRun(Created(true, customAdjustment), events)
    ensures Follows(Run(Created(true, customAdjustment), events))
  {
    if events != [] {
      var start, earlier, e := Created(true, customAdjustment), events[..|events| - 1], events[|events| - 1];
      assert earlier + [e] == events;
      UsualRunPrefix(start, earlier, e);
      CacheStaysSound(customAdjustment, earlier);
      ModeStays(start, earlier);
      UsualStepFollows(Run(start, earlier), e);
    }
  }

  // ---------------------------------------------------------------- what the light is told

  /** An update a step makes, with the controller as the search finds it. */
  datatype Update = Update(before: Controller, dryRun: bool, now: real, light: Light)

  ghost function UpdateOf(c: Controller, e: Event): Option<Update> {
    match e
    case Renew(t, written, now, light) =>
      if c.automatic then Some(Update(TimerCleared(c.(active := Some(Written(t, written)))), false, now, light))
      else None
    case Restore(t, now, light) => if c.automatic then Some(Update(c.(active := Some(t)), false, now, light)) else None
    case TimerFires(id, now, light) =>
      if id in c.armed then Some(Update(c.(armed := c.armed - {id}), false, now, light)) else None
    case BrightnessChanged(byRead, now, light) =>
      if c.listeners.brightness > 0 && !byRead then Some(Update(c, true, now, light)) else None
    case DelayFires(now, light) =>
      if c.delayed > 0 then Some(Update(c.(delayed := c.delayed - 1), true, now, light)) else None
    case _ => None
  }

  /** The update tells the light what a search from zero leads to, and ends the transition when that finds nothing. */
  ghost predicate AsScheduled(u: Update)
    requires u.before.active.Some? && Ramped(u.before.active.value.curve)
  {
    var (c, t) := (u.before, u.before.active.value);
    var c' := Scheduled(c, u.dryRun, u.now, u.light);
    match SearchedValue(t.curve, None, OffsetAt(t, u.now))
    case Some(value) =>
      && |c'.log| > |c.log| && c'.log[|c.log|].SetTemperature?
      && c'.log[|c.log|].temperature == Some(TemperatureFor(value, t, c.customAdjustment, u.light))
      && c'.active == (if u.light.handlerDisables then None else c.active)
    case None =>
      if u.dryRun then c'.log == c.log && c'.active == c.active else c'.log == c.log + [Disabled] && c'.active.None?
  }

  /** The saved hit lies past the end of a curve that a search from zero would find a segment in. */
  ghost predicate PastTheEnd(u: Update)
    requires u.before.active.Some?
  {
    var (c, t) := (u.before, u.before.active.value);
    c.last.Some? && c.last.value.curveIndex + 1 >= |t.curve| && Lookup(t.curve, None, OffsetAt(t, u.now)).Some?
  }

  /** What an update does, from the search it makes. */
  lemma UpdateByLookup(u: Update)
    requires u.before.active.Some? && Ramped(u.before.active.value.curve)
    ensures var (c, t) := (u.before, u.before.active.value);
      var c' := Scheduled(c, u.dryRun, u.now, u.light);
      match SearchedValue(t.curve, c.last, OffsetAt(t, u.now))
      case Some(value) =>
        && |c'.log| > |c.log| && c'.log[|c.log|].SetTemperature?
        && c'.log[|c.log|].temperature == Some(TemperatureFor(value, t, c.customAdjustment, u.light))
        && c'.active == (if u.light.handlerDisables then None else c.active)
      case None =>
        if u.dryRun then c'.log == c.log && c'.active == c.active else c'.log == c.log + [Disabled] && c'.active.None?
  {
  }

  lemma AsScheduledIff(u: Update)
    requires u.before.active.Some? && Ramped(u.before.active.value.curve)
    requires var (c, t) := (u.before, u.before.active.value); var offset := OffsetAt(t, u.now);
      || Sound(t.curve, c.last) || Restarts(t.curve, c.last, offset)
      || (c.last.Some? && c.last.value.curveIndex + 1 >= |t.curve| && Lookup(t.curve, c.last, offset) == None)
    ensures AsScheduled(u) <==> !PastTheEnd(u)
  {
    var (c, t) := (u.before, u.before.active.value);
    UpdateByLookup(u);
    if Sound(t.curve, c.last) || Restarts(t.curve, c.last, OffsetAt(t, u.now)) {
      CachedSearchAgrees(t.curve, c.last, OffsetAt(t, u.now));
    }
  }

  lemma UpdateIsScheduledIff(c: Controller, e: Event)
    requires c.automatic && Follows(c) && Usual(c, e)
    requires UpdateOf(c, e).Some? && UpdateOf(c, e).value.before.active.Some?
    ensures var u := UpdateOf(c, e).value;
      && Step(c, e) == Scheduled(u.before, u.dryRun, u.now, u.light)
      && Ramped(u.before.active.value.curve)
      && (AsScheduled(u) <==> !PastTheEnd(u))
      && (PastTheEnd(u) ==> e.Renew?)
  {
    var u := UpdateOf(c, e).value;
    if e.Renew? { PromptRenewalFinds(c, e.transition, e.written, e.now); }
    AsScheduledIff(u);
  }

  /** In automatic mode, on every run, every update sets the temperature that a search from zero leads to and ends the
      transition exactly when that search finds nothing, with one exception: the update of a renewal ends the
      transition when the saved hit lies past the end of the renewed curve. */
  lemma EveryUpdateIsScheduledIff(customAdjustment: real, events: seq<Event>, e: Event)
    requires UsualRun(Created(true, customAdjustment), events + [e])
    requires var update := UpdateOf(Run(Created(true, customAdjustment), events), e);
      update.Some? && update.value.before.active.Some?
    ensures var c := Run(Created(true, customAdjustment), events);
      var u := UpdateOf(c, e).value;
      && Run(Created(true, customAdjustment), events + [e]) == Scheduled(u.before, u.dryRun, u.now, u.light)
      && Ramped(u.before.active.value.curve)
      && (AsScheduled(u) <==> !PastTheEnd(u))
      && (PastTheEnd(u) ==> e.Renew? && c.active.Some?)
  {
    var start := Created(true, customAdjustment);
    UsualRunPrefix(start, events, e);
    CacheStaysSound(customAdjustment, events);
    ModeStays(start, events);
    UpdateIsScheduledIff(Run(start, events), e);
  }

  // ---------------------------------------------------------------- renewals in manual mode

  /** What the answer to a user amounts to. */
  ghost function AnswerAt(c: Controller, now: real): Option<Value>
    requires c.active.Some? && Ramped(c.active.value.curve)
  {
    SearchedValue(c.active.value.curve, c.last, OffsetAt(c.active.value, now))
  }

  lemma AnswerIsLogged(c: Controller, now: real)
    requires c.active.Some? && Ramped(c.active.value.curve)
    ensures var c' := Step(c, Ask(now));
      && c'.log == c.log + [c'.log[|c.log|]] && c'.log[|c.log|].Answered?
      && match c'.log[|c.log|].point
         case Some(point) => point.upperBound.transitionTime != 0.0 && AnswerAt(c, now) == Some(Interpolate(point))
         case None => AnswerAt(c, now) == None
  {
  }

  /** In manual mode nothing is searched at a renewal. A user who asks next gets the value of a search from zero at
      whatever moment if and only if there was no saved hit or it happens to be right for the new curve. */
  lemma AnswersAfterRenewalIff(c: Controller, t: Transition, written: real, now: real, light: Light)
    requires !c.automatic && Ramped(t.curve) && |t.curve| >= 2
    ensures var c' := Step(c, Renew(t, written, now, light));
      && c'.active == Some(Written(t, written))
      && ((forall asked: real ::
             AnswerAt(c', asked) == SearchedValue(t.curve, None, OffsetAt(Written(t, written), asked)))
          <==> Sound(t.curve, c.last))
  {
    var c' := Step(c, Renew(t, written, now, light));
    var t' := Written(t, written);
    if Sound(t.curve, c.last) {
      forall asked: real ensures AnswerAt(c', asked) == SearchedValue(t.curve, None, OffsetAt(t', asked)) {
        CachedSearchAgrees(t.curve, c.last, OffsetAt(t', asked));
      }
    } else {
      CacheTrustedForValuesIff(t.curve, c.last.value);
      var offset: real :| SearchedValue(t.curve, c.last, offset) != SearchedValue(t.curve, None, offset);
      assert OffsetAt(t', offset + written) == offset;
    }
  }

  // ---------------------------------------------------------------- two runs

  lemma RunAppended(start: Controller, events: seq<Event>, e: Event)
    ensures Run(start, events + [e]) == Step(Run(start, events), e)
  {
    assert (events + [e])[..|events|] == events;
  }

  function Plain(curve: Curve): Transition {
    Transition(curve, 0.0, 0.0, 60000.0, 600000.0, 0.0, 0.0)
  }

  const LAMP := Light(false, false, 0.0, 140.0, 500.0, 0.0, 0.0, false)

  function Ramp(temperature: real, transitionTime: real): Entry {
    Entry(temperature, 0.0, None, transitionTime)
  }

  const REPLACED := [Ramp(100.0, 0.0), Ramp(100.0, 10.0), Ramp(200.0, 10.0)]

  const RENEWED := [Ramp(100.0, 0.0).(duration := Some(5.0)), Ramp(100.0, 10.0), Ramp(200.0, 10.0)]

  /** A user asks during the first curve, and then another curve is written. */
  function AskedThenRenewed(first: Transition, asked: real, second: Transition, written: real): seq<Event> {
    [Renew(first, 0.0, 0.0, LAMP)] + [Ask(asked)] + [Renew(second, written, written, LAMP)]
  }

  lemma ManualRun(first: Transition, asked: real, second: Transition, written: real)
    ensures var c := Run(Created(false, 0.0), AskedThenRenewed(first, asked, second, written));
      && c.active == Some(Written(second, written))
      && c.last == SavedOf(first.curve, Lookup(first.curve, None, asked))
  {
    var start := Created(false, 0.0);
    var e1, e2, e3 := Renew(first, 0.0, 0.0, LAMP), Ask(asked), Renew(second, written, written, LAMP);
    assert [] + [e1] == [e1];
    RunAppended(start, [], e1);
    RunAppended(start, [e1], e2);
    RunAppended(start, [e1] + [e2], e3);
    var c1 := Run(start, [e1]);
    assert c1.active == Some(Written(first, 0.0)) && c1.last == None && !c1.automatic;
    assert OffsetAt(Written(first, 0.0), asked) == asked;
  }

  lemma FirstSearch()
    ensures FromWire(REPLACED) && Lookup(REPLACED, None, 12.0) == Some((1, 0.0))
    ensures SavedOf(REPLACED, Some((1, 0.0))) == Some(Saved(1, 0.0))
  {
    assert Start(REPLACED, 0) == 0.0 && Start(REPLACED, 1) == 0.0 && Start(REPLACED, 2) == 10.0;
    assert !InSegment(REPLACED, 0, 12.0) && InSegment(REPLACED, 1, 12.0);
  }

  lemma SecondSearch()
    ensures Ramped(RENEWED)
    ensures SearchedValue(RENEWED, Some(Saved(1, 0.0)), 12.0) == Some(Value(120.0, 0.0))
    ensures SearchedValue(RENEWED, None, 12.0) == Some(Value(100.0, 0.0))
  {
    assert Start(RENEWED, 1) == 5.0 && Start(RENEWED, 2) == 15.0;
    assert InSegment(RENEWED, 0, 12.0) && InSegment(RENEWED, 1, 17.0);
    assert Lookup(RENEWED, Some(Saved(1, 0.0)), 12.0) == Some((1, -5.0));
    assert Lookup(RENEWED, None, 12.0) == Some((0, 0.0));
  }

  /** In manual mode, 12 milliseconds into the renewed curve, the answer to the user is wrong by 20 although both
      searches find a segment. */
  lemma RenewalMisleadsAUser()
    ensures var c := Run(Created(false, 0.0), AskedThenRenewed(Plain(REPLACED), 12.0, Plain(RENEWED), 100.0));
      && c.active == Some(Written(Plain(RENEWED), 100.0)) && FromWire(REPLACED) && FromWire(RENEWED)
      && AnswerAt(c, 112.0) == Some(Value(120.0, 0.0))
      && SearchedValue(RENEWED, None, OffsetAt(c.active.value, 112.0)) == Some(Value(100.0, 0.0))
  {
    FirstSearch();
    SecondSearch();
    ManualRun(Plain(REPLACED), 12.0, Plain(RENEWED), 100.0);
    assert OffsetAt(Written(Plain(RENEWED), 100.0), 112.0) == 12.0;
  }

  const SHORT := [Ramp(100.0, 0.0), Ramp(200.0, 10.0)]

  /** A hit of one curve can lie past the end of another one that a search from zero finds its first segment in. */
  lemma ShortCurve()
    ensures FromWire(REPLACED) && Sound(REPLACED, Some(Saved(1, 0.0)))
    ensures FromWire(SHORT) && Lookup(SHORT, Some(Saved(1, 0.0)), 0.0) == None
      && Lookup(SHORT, None, 0.0) == Some((0, 0.0))
  {
    FirstSearch();
    assert Start(SHORT, 0) == 0.0;
    assert InSegment(SHORT, 0, 0.0);
  }

  lemma PastTheEndEnds(u: Update)
    requires u.before.active.Some? && Ramped(u.before.active.value.curve) && PastTheEnd(u)
    ensures Scheduled(u.before, u.dryRun, u.now, u.light).active == if u.dryRun then u.before.active else None
  {
    var (c, t) := (u.before, u.before.active.value);
    assert SearchedValue(t.curve, c.last, OffsetAt(t, u.now)) == None;
    UpdateByLookup(u);
  }

  /** A renewal with so few entries that the saved hit lies past the end makes the transition end at its very start. */
  lemma RenewedPastTheEnd(c: Controller, t: Transition, written: real, now: real, light: Light)
    requires c.automatic && Ramped(t.curve)
    requires c.last.Some? && c.last.value.curveIndex + 1 >= |t.curve|
    requires Lookup(t.curve, None, OffsetAt(Written(t, written), now)).Some?
    ensures Step(c, Renew(t, written, now, light)).active.None?
  {
    PastTheEndEnds(Update(TimerCleared(c.(active := Some(Written(t, written)))), false, now, light));
  }

  lemma UpdateMade(c: Controller, now: real, light: Light)
    requires c.active.Some? && !light.handlerDisables
    requires Lookup(c.active.value.curve, c.last, OffsetAt(c.active.value, now)).Some?
    ensures var (t, c') := (c.active.value, Scheduled(c, false, now, light));
      && c'.active == c.active && c'.automatic == c.automatic && c.nextTimer in c'.armed
      && c'.last == SavedOf(t.curve, Lookup(t.curve, c.last, OffsetAt(t, now)))
  {
  }

  function UpdatedOnce(t: Transition, now: real, light: Light): seq<Event> {
    [Renew(t, 0.0, 0.0, light)] + [TimerFires(0, now, light)]
  }

  lemma AutomaticStart(t: Transition, light: Light)
    requires !light.handlerDisables && Lookup(t.curve, None, 0.0).Some?
    ensures var c := Step(Created(true, 0.0), Renew(t, 0.0, 0.0, light));
      && c.automatic && c.active == Some(Written(t, 0.0)) && 0 in c.armed
      && c.last == SavedOf(t.curve, Lookup(t.curve, None, 0.0))
  {
    assert OffsetAt(Written(t, 0.0), 0.0) == 0.0;
    UpdateMade(Created(true, 0.0).(active := Some(Written(t, 0.0))), 0.0, light);
  }

  lemma AutomaticUpdate(c: Controller, t: Transition, now: real, light: Light)
    requires c.active == Some(Written(t, 0.0)) && 0 in c.armed
    requires !light.handlerDisables && Lookup(t.curve, c.last, now).Some?
    ensures var c' := Step(c, TimerFires(0, now, light));
      && c'.automatic == c.automatic && c'.active == c.active
      && c'.last == SavedOf(t.curve, Lookup(t.curve, c.last, now))
  {
    assert OffsetAt(Written(t, 0.0), now) == now;
    UpdateMade(c.(armed := c.armed - {0}), now, light);
  }

  lemma AutomaticRun(t: Transition, now: real, light: Light)
    requires !light.handlerDisables && Lookup(t.curve, None, 0.0).Some?
    requires Lookup(t.curve, SavedOf(t.curve, Lookup(t.curve, None, 0.0)), now).Some?
    ensures var c := Run(Created(true, 0.0), UpdatedOnce(t, now, light));
      && c.automatic && c.active == Some(Written(t, 0.0))
      && c.last == SavedOf(t.curve, Lookup(t.curve, SavedOf(t.curve, Lookup(t.curve, None, 0.0)), now))
  {
    var e1, e2 := Renew(t, 0.0, 0.0, light), TimerFires(0, now, light);
    assert [] + [e1] == [e1];
    RunAppended(Created(true, 0.0), [], e1);
    RunAppended(Created(true, 0.0), [e1], e2);
    AutomaticStart(t, light);
    AutomaticUpdate(Run(Created(true, 0.0), [e1]), t, now, light);
  }

  lemma BothSearches()
    ensures Lookup(REPLACED, None, 0.0) == Some((0, 0.0))
    ensures SavedOf(REPLACED, Some((0, 0.0))) == Some(Saved(0, 0.0))
    ensures Lookup(REPLACED, Some(Saved(0, 0.0)), 12.0) == Some((1, 0.0))
  {
    assert Start(REPLACED, 0) == 0.0 && Start(REPLACED, 1) == 0.0;
    assert InSegment(REPLACED, 0, 0.0) && InSegment(REPLACED, 1, 12.0) && !InSegment(REPLACED, 0, 12.0);
  }

  lemma ShorterCurveEnds(first: Transition, asked: real, second: Transition, written: real, light: Light)
    requires !light.handlerDisables && Lookup(first.curve, None, 0.0).Some?
    requires Lookup(first.curve, SavedOf(first.curve, Lookup(first.curve, None, 0.0)), asked).Some?
    requires FromWire(second.curve) && Lookup(second.curve, None, 0.0).Some?
    requires Lookup(first.curve, SavedOf(first.curve, Lookup(first.curve, None, 0.0)), asked).value.0 + 1
      >= |second.curve|
    ensures var c := Run(Created(true, 0.0), UpdatedOnce(first, asked, light));
      && c.active == Some(Written(first, 0.0))
      && Step(c, Renew(second, written, written, light)).active.None?
  {
    AutomaticRun(first, asked, light);
    assert OffsetAt(Written(second, written), written) == 0.0;
    RenewedPastTheEnd(Run(Created(true, 0.0), UpdatedOnce(first, asked, light)), second, written, written, light);
  }

  /** In automatic mode: one update 12 milliseconds into a curve of three entries, and then a curve of two is written.
      Its transition ends at once, although a search from zero finds its first segment. */
  lemma RenewalEndsATransition()
    ensures FromWire(SHORT) && Lookup(SHORT, None, 0.0) == Some((0, 0.0))
    ensures var c := Run(Created(true, 0.0), UpdatedOnce(Plain(REPLACED), 12.0, LAMP));
      && c.active == Some(Written(Plain(REPLACED), 0.0))
      && Step(c, Renew(Plain(SHORT), 100.0, 100.0, LAMP)).active.None?
  {
    BothSearches();
    ShortCurve();
    ShorterCurveEnds(Plain(REPLACED), 12.0, Plain(SHORT), 100.0, LAMP);
  }
}
