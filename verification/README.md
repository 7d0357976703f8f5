# Verified models of HAP-NodeJS

HAP-NodeJS publishes accessories over Apple's HomeKit Accessory Protocol. This project models its stateful cores in Dafny
and proves what they are meant to guarantee. `dafny verify dfyconfig.toml` checks all of it.

| module | what it models |
|---|---|
| `TransitionCurve`, `TransitionWire` | the transition curve of Adaptive Lighting: the cached search, the interpolation, the wire form |
| `AdaptiveLighting` | the controller around it: its timer, listeners and notifications |
| `LightingEffects` | what it tells the light, the subscribers and the plugin, and what ends a transition |
| `RenewedTransitions` | its saved search result over whole runs, with curves renewed at any time |
| `RecordingChunks`, `RecordingStream` | HomeKit Secure Video: how packets are cut up, and everything that can close a recording |
| `CharacteristicValues`, `StepGrid`, `CharacteristicValidation` | bounds, the numeric sanitizer, the check of values from controllers, the iterator over valid values |
| `RequestAggregator` | fanning a request out to many handlers with two timers and one answer |
| `EventSubscriptions`, `TimedWrites` | event registrations and their counts; prepared writes and the checks of a write |
| `Pairings`, `PairSetup`, `PairVerify` | the registry of paired clients, Pair Setup and Pair Verify over many connections |
| `RtpSessions` | the one session slot of an RTP stream management, changed by requests and late callbacks |
| `Quarantine` | bridged accessories with malformed permissions |
| `SetupPayload` | the setup URI |
| `HapTypes`, `Reals`, `Wrappers` | what the modules share |

## How to read it

Every module describes its component as a machine on values: a state, the events, and `Step`. `Run` folds a list of
events, so a lemma about `Run` speaks of every interleaving. Timers, promises and network events are events that
happen at any time while they are possible. What cryptography says about a message is part of the message. The classes
carry the fields of the source's objects; each method changes them in place and is proved to do what `Step` (or the
function behind the event) says. Numbers are reals, identifiers are natural numbers.

A property that the code does not have everywhere is stated with the exact condition under which it does, in a lemma
whose name ends in `Iff`, next to a concrete counterexample.

## What the proofs found

* A renewed transition curve keeps the saved search result of the old one. The cached search and a search from zero lead
  to the same values if and only if the saved result is right for the curve (`CacheTrustedForValuesIff`). In automatic
  mode the update made inside the renewal puts that right, because the renewal sets the time offset back: on every run
  each update sets the scheduled temperature (`CacheStaysSound`, `EveryUpdateIsScheduledIff`). One exception remains: a
  curve with so few entries that the saved result lies past its end is ended by its own renewal
  (`RenewalEndsATransition`). In manual mode nothing is searched at a renewal, and a user who asks for the current point
  afterwards may be told a wrong one, under an exact condition (`AnswersAfterRenewalIff`, `RenewalMisleadsAUser`).
* A curve restored from disk over an active transition would forget a timer that still fires (`StepKeepsIff`). No path
  in the repository does that: `ControllerStorage.ts:103-114` and `:166-178` restore a controller when it is configured
  or when the storage is loaded for the first time, and removing a controller purges what is stored for it.
* `setProps` asserts that a list of valid values is not empty after it has assigned the bounds and before it compares
  them, so such a call can leave crossed bounds behind (`UpdateKeepsOrderIff`).
* Without a declared minimum, a signed format can be moved off its step grid by the sanitizer, and moved again by a
  second pass (`AdjustedIdempotentIff`, `AdjustedOnStepIff`). Without both bounds, the iterator over valid values of an
  unsigned format ignores the bound there is and the step, so it is right if and only if both are those of the format
  (`UnsignedEnumerationExactIff`). With a valid range it goes on by one from the lower end, whatever the step
  (`RangeEnumerationExactIff`).
* The comment beside the counter of unsuccessful pairing attempts speaks of 100 attempts; the code looks at 101
  (`AttemptsAreLimited`, `LimitIsReached`). The proofs follow the code.
* With insecure requests allowed, pairing an administrator a second time counts it twice, and nothing else ever puts the
  count off (`RepairingsAreMiscounted`). An only administrator may take the permission away from itself, after which
  nobody can change the pairings (`AdministratorStaysIff`, `LockedOut`).
* A `prepareStream` or stream request callback that comes late acts on whichever session is active: a failure empties
  the slot of a newer one without a STOP, and a success answers with the endpoints of the older one, if and only if the
  slot has been taken again since, be it with the same session identifier (`EmptiesAnotherOpeningIff`,
  `AnswersForAnotherOpeningIff`, `LateCallbacksMeetNewerSessions`).
* An OPEN request on a data stream connection that is already down leaves an open recording stream with neither a
  generator nor a timer, and no other request does (`NoStreamLeaks`). It goes when the connection is reported closed.
* A connection that closes while the accessory cannot find a characteristic leaves that characteristic's subscription
  count one too high (`CountExactIff`).
* The loop that pads the setup payload compares its counter with a bound that shrinks, so it is right for seven, eight
  or nine digits only; every defined category has seven (`NineCharactersIff`).
* An empty recording packet sends nothing but uses up a sequence number (`ReceivedExactlyIff`).
* The comment that an update enqueued from a representation build terminates is right: it fires at most twice while the
  model stays as it is (`UpdatesTerminate`).

## Model

| member | source | states |
|---|---|---|
| `TransitionCurve.FirstHitIsFirst` | src/lib/controller/AdaptiveLightingController.ts:764-795 | the segment the search settles on is the first one, from where it starts, whose closed time interval contains the offset |
| `TransitionCurve.Schedule.CurrentPoint` | src/lib/controller/AdaptiveLightingController.ts:757-815 | the loop with its restart returns the point of the segment found and remembers exactly that hit; it restarts at most once because the saved hit is dropped first |
| `TransitionCurve.FreshSearchIff` | src/lib/controller/AdaptiveLightingController.ts:764-815 | a search from zero finds a segment exactly when the offset lies between reaching the first and reaching the last entry |
| `TransitionCurve.CachedSearchIff` | src/lib/controller/AdaptiveLightingController.ts:764-815 | exactly when a search that trusts a saved hit finds a segment, with the drift of that hit taken into account |
| `TransitionCurve.CacheTrustedIff` | src/lib/controller/AdaptiveLightingController.ts:764-815 | for every saved hit: cached and fresh search find a segment at the same offsets if and only if the saved hit was made on this curve |
| `TransitionCurve.SoundCacheFinds` | src/lib/controller/AdaptiveLightingController.ts:764-815 | with a hit made on this curve, the cached search is undefined exactly when a search from zero is |
| `TransitionCurve.SearchLeavesSoundCache` | src/lib/controller/AdaptiveLightingController.ts:796-807 | such a search leaves behind a hit of this curve |
| `TransitionCurve.ValueBetweenNeighbours` | src/lib/controller/AdaptiveLightingController.ts:844-854 | temperature and factor each stay between the two neighbouring entries |
| `TransitionCurve.ValueAtEnds` | src/lib/controller/AdaptiveLightingController.ts:844-854 | at both ends of a segment the interpolation gives the entry that is reached there |
| `TransitionCurve.ValueDuringStay` | src/lib/controller/AdaptiveLightingController.ts:846-848 | while an entry is held, the value is that of the entry |
| `TransitionCurve.RampIsEven` | src/lib/controller/AdaptiveLightingController.ts:849-854 | after the stay, temperature and factor move at one rate: equal times make equal steps, for any three moments of the ramp |
| `TransitionCurve.ValueUnique` | src/lib/controller/AdaptiveLightingController.ts:844-854 | where two segments share an end point both give the same value |
| `TransitionCurve.CachedSearchAgrees` | src/lib/controller/AdaptiveLightingController.ts:757-854 | with a hit made on this curve, or any hit lying past the offset, cached search and search from zero lead to the same temperature and factor, even where they choose different segments |
| `TransitionCurve.CacheTrustedForValuesIff` | src/lib/controller/AdaptiveLightingController.ts:757-854 | for every saved hit: cached search and search from zero lead to the same temperature and factor at every offset if and only if the hit was made on this curve (or the curve has no segment) |
| `TransitionWire.Store` | src/lib/controller/AdaptiveLightingController.ts:1208-1232 | the decoding loop, which completes the previous entry in place, moves every duration to the entry before |
| `TransitionWire.ReadBackStored` | src/lib/controller/AdaptiveLightingController.ts:1154-1163 | reading back a stored curve gives the written one, with the first duration 0 and absent ones 0 |
| `TransitionWire.ReadBackExactIff` | src/lib/controller/AdaptiveLightingController.ts:1154-1232 | it comes back untouched if and only if every duration is written out and the first is 0 |
| `TransitionWire.StoreAgain` | src/lib/controller/AdaptiveLightingController.ts:1154-1232 | storing what was read back gives the same schedule |
| `TransitionWire.ScheduleSurvivesReadBack` | src/lib/controller/AdaptiveLightingController.ts:1154-1232 | every search, with any saved hit, leads to the same value after the trip |
| `AdaptiveLighting.TemperatureFollowsBrightness` | src/lib/controller/AdaptiveLightingController.ts:856-871 | a brighter light moves in the direction of the adjustment factor, never against it |
| `AdaptiveLighting.DisableRemovesAll` | src/lib/controller/AdaptiveLightingController.ts:536-569 | disabling leaves the controller as it was created, whatever happened before |
| `AdaptiveLighting.StepKeepsIff` | src/lib/controller/AdaptiveLightingController.ts:536-941 | an update timer is armed exactly in automatic mode with an active transition and never twice; listeners are attached exactly when the first-initialization flag is set; every step keeps this if and only if it is not a restore over an active transition |
| `AdaptiveLighting.RestoreOverActiveLeaks` | src/lib/controller/AdaptiveLightingController.ts:1024-1040 | a restore over an active transition would forget a timer that will still fire; no caller in the repository makes one |
| `AdaptiveLighting.RunKeeps` | src/lib/controller/AdaptiveLightingController.ts:536-941 | the same over every run whose restores come first |
| `AdaptiveLighting.NotificationsKeepDistance` | src/lib/controller/AdaptiveLightingController.ts:915-936 | on every run, two notification batches without a disable in between are at least the current threshold apart |
| `AdaptiveLighting.AdaptiveLightingController.DisableAdaptiveLighting` | src/lib/controller/AdaptiveLightingController.ts:536-569 | the whole new state of a disable |
| `AdaptiveLighting.AdaptiveLightingController.HandleAdaptiveLightingEnabled` | src/lib/controller/AdaptiveLightingController.ts:675-696 | attaches one listener per characteristic the light has |
| `AdaptiveLighting.AdaptiveLightingController.SendEventNotifications` | src/lib/controller/AdaptiveLightingController.ts:915-936 | notifies when the threshold has passed, and tells temperature, saturation and hue only when they changed |
| `AdaptiveLighting.AdaptiveLightingController.ToldAt` | src/lib/controller/AdaptiveLightingController.ts:915-936 | what is new to those who were told last, characteristic by characteristic |
| `AdaptiveLighting.AdaptiveLightingController.FindPoint` | src/lib/controller/AdaptiveLightingController.ts:817-838 | drops the handle, initializes once, and searches |
| `AdaptiveLighting.AdaptiveLightingController.ApplyTemperature` | src/lib/controller/AdaptiveLightingController.ts:856-941 | sets the temperature, stops if the handler disabled the mode, else notifies and arms the next update |
| `AdaptiveLighting.AdaptiveLightingController.ScheduleNextUpdate` | src/lib/controller/AdaptiveLightingController.ts:817-941 | the whole new state of an update or a dry run |
| `AdaptiveLighting.AdaptiveLightingController.GetCurrentTransitionPoint` | src/lib/controller/AdaptiveLightingController.ts:757-815 | the public search answers a user and moves the saved hit |
| `AdaptiveLighting.AdaptiveLightingController.HandleActiveTransitionUpdated` | src/lib/controller/AdaptiveLightingController.ts:642-673 | updates in automatic mode, reports in manual mode |
| `AdaptiveLighting.AdaptiveLightingController.HandleUpdateTransition` | src/lib/controller/AdaptiveLightingController.ts:1205-1269 | a written curve replaces the transition and the timer, and its time offset is the delay since its start |
| `AdaptiveLighting.AdaptiveLightingController.Deserialize` | src/lib/controller/AdaptiveLightingController.ts:1024-1040 | a restored curve replaces the transition only |
| `AdaptiveLighting.AdaptiveLightingController.HandleAdaptiveLightingDisabled` | src/lib/controller/AdaptiveLightingController.ts:698-703 | a disable by command reports in manual mode first |
| `AdaptiveLighting.AdaptiveLightingController.HandleAdjustmentFactorChanged` | src/lib/controller/AdaptiveLightingController.ts:705-736 | a brightness read postpones the dry run, a write makes it at once |
| `AdaptiveLighting.AdaptiveLightingController.HandleCharacteristicManualWritten` | src/lib/controller/AdaptiveLightingController.ts:741-751 | a manual write disables the mode |
| `RenewedTransitions.CacheStaysSoundIff` | src/lib/controller/AdaptiveLightingController.ts:757-941 | for every controller and every step, a hit of the active curve stays one of the active curve if and only if no other curve comes over it whose first search, if one is made, trusts it and finds a segment |
| `RenewedTransitions.PromptRenewalFinds` | src/lib/controller/AdaptiveLightingController.ts:1206-1242 | the search made inside a renewal, whose offset line 1206 puts back near zero, notices a hit of the old curve, or the hit is right for the new curve, or it lies past its end |
| `RenewedTransitions.CacheStaysSound` | src/lib/controller/AdaptiveLightingController.ts:757-1269 | in automatic mode, on every run with renewals at any time, the saved hit is one of the active curve |
| `RenewedTransitions.EveryUpdateIsScheduledIff` | src/lib/controller/AdaptiveLightingController.ts:817-906 | in automatic mode, on every run, each update, the one inside a renewal included, sets the temperature a search from zero leads to and ends the transition exactly when that search finds nothing, if and only if the saved hit does not lie past the end of a curve with a segment to find; only a renewal meets such a hit |
| `RenewedTransitions.RenewedPastTheEnd` | src/lib/controller/AdaptiveLightingController.ts:764-795 | a renewal by a curve the saved hit lies past the end of ends the transition although a search from zero finds a segment |
| `RenewedTransitions.RenewalEndsATransition` | src/lib/controller/AdaptiveLightingController.ts:828-835 | a run on which this happens (concrete curves) |
| `RenewedTransitions.AnswersAfterRenewalIff` | src/lib/controller/AdaptiveLightingController.ts:642-673 | in manual mode nothing is searched at a renewal: a user who asks next is answered at every moment as by a search from zero if and only if there was no saved hit or it is right for the new curve |
| `RenewedTransitions.RenewalMisleadsAUser` | src/lib/controller/AdaptiveLightingController.ts:757-815 | a run in manual mode on which the answer after a renewal is wrong by 20 although both searches find a segment (concrete curves) |
| `LightingEffects.TemperatureIsNearest` | src/lib/controller/AdaptiveLightingController.ts:856-871 | the light is told the whole number nearest to the scheduled temperature plus factor times capped brightness, raised by the user adjustment and cut at the bounds of the light |
| `LightingEffects.OffsetAfterWrite` | src/lib/controller/AdaptiveLightingController.ts:1205-1206 | the offset into a written curve is the time since it was written |
| `LightingEffects.EveryEventTells` | src/lib/controller/AdaptiveLightingController.ts:817-941 | on every run, each event tells the light, the subscribers and the plugin exactly what a table says: the color with hue and saturation as held, a notification when the threshold has passed since the last one told, with what differs from it, and the events of the manual mode |
| `LightingEffects.EndsIff` | src/lib/controller/AdaptiveLightingController.ts:536-569 | a transition ends if and only if it is disabled, a characteristic listened to is written by hand, an update that is no dry run finds no point, or the handler of the light disables the mode |
| `LightingEffects.ListensIff` | src/lib/controller/AdaptiveLightingController.ts:675-696 | the controller listens to a characteristic exactly while a transition is active in automatic mode and it holds that characteristic |
| `LightingEffects.HoldsHueIff` | src/lib/controller/AdaptiveLightingController.ts:675-696 | it holds hue and saturation if the light had them at the first update |
| `LightingEffects.DelaysAreCounted` | src/lib/controller/AdaptiveLightingController.ts:705-736 | a brightness read waits for its own timer, which makes one dry run |
| `RecordingChunks.SendPacket` | src/lib/camera/RecordingManagement.ts:1040-1074 | the inner loop cuts one packet into its chunks and tags at most the first as initialization |
| `RecordingChunks.SendAll` | src/lib/camera/RecordingManagement.ts:1015-1083 | the outer loop sends the packets up to the first one marked last |
| `RecordingChunks.PacketReceived` | src/lib/camera/RecordingManagement.ts:1040-1074 | a strict receiver, which checks chunk size and numbers, sequence numbers, total size, last-chunk flag, end of stream and tag, accepts the chunks of one packet and gets its bytes |
| `RecordingChunks.RoundTrip` | src/lib/camera/RecordingManagement.ts:1015-1083 | cutting and reassembling undo each other for every list of non-empty packets with only the final one marked last |
| `RecordingChunks.ReceivedExactlyIff` | src/lib/camera/RecordingManagement.ts:1015-1083 | whatever the generator yields, the receiver ends up with the packets taken if and only if none of them is empty |
| `RecordingStream.StepKeeps` | src/lib/camera/RecordingManagement.ts:543-603 | every event keeps the order of the output, the timers and the current stream right |
| `RecordingStream.RunKeeps` | src/lib/camera/RecordingManagement.ts:516-1250 | so does every interleaving |
| `RecordingStream.ClosesExactlyOnce` | src/lib/camera/RecordingManagement.ts:1131-1250 | a closed stream has notified its delegate once and emitted CLOSED once, an open one not at all, and no data follows CLOSED |
| `RecordingStream.CurrentIsTheOpenStream` | src/lib/camera/RecordingManagement.ts:575-602 | the management's stream is set exactly when one unclosed stream exists, so an old stream closing late clears no newer one |
| `RecordingStream.NoStreamLeaks` | src/lib/camera/RecordingManagement.ts:1004-1250 | an open stream has an awaited generator or an armed closing timer if and only if the connection was not down already when it was opened; an armed generator timer implies an awaited generator |
| `RecordingStream.IdleIff` | src/lib/camera/RecordingManagement.ts:1004-1015 | on every run, the generator of a stream is never asked for exactly when the connection was down as it was opened |
| `RecordingStream.ManagementIsFreed` | src/lib/camera/RecordingManagement.ts:516-603 | closing timer, lost connection and a camera switched off each free the management |
| `RecordingStream.OpensIff` | src/lib/camera/RecordingManagement.ts:543-603 | on every run, a request opens a stream if and only if it is for this protocol, recording and camera were switched on last, every earlier stream is closed and a configuration was selected; the reason of a refusal is that of the first that fails |
| `RecordingStream.ClosesIff` | src/lib/camera/RecordingManagement.ts:1131-1250 | an event closes an open stream if and only if it is one of the listed causes, and then delegate and other side are told just that cause; a closed one is told nothing |
| `RecordingStream.OpeningClosesIff` | src/lib/camera/RecordingManagement.ts:1090-1125 | a stream is closed right as it is opened exactly when asking for its generator throws, with the reason of the error |
| `RecordingStream.GeneratorTimerIff` | src/lib/camera/RecordingManagement.ts:1185-1211 | the generator timer is armed by closing a stream over an awaited generator, until it fires or the generator is done |
| `RecordingStream.TakenIsHandedOver` | src/lib/camera/RecordingManagement.ts:1029-1083 | on every run, the packets sent and the state of the generator are read off the events: what is yielded to an open stream whose loop waits is sent, and what ends the loop is the closed stream, the dead socket, the last packet or the end of the generator |
| `RecordingStream.SentDataReassembles` | src/lib/camera/RecordingManagement.ts:1015-1083 | whatever interrupts a stream, the data sent puts together exactly the packets yielded to it while it was open, its loop waited and the socket took them |
| `RecordingStream.CameraRecordingStream.HandleClosed` | src/lib/camera/RecordingManagement.ts:1167-1211 | the closing routine runs its effects once and forgets the current stream |
| `RecordingStream.CameraRecordingStream.CloseLocally` | src/lib/camera/RecordingManagement.ts:1217-1235 | a local close tells the other side unless the connection is gone |
| `RecordingStream.CameraRecordingStream.HandleDataSendClose` | src/lib/camera/RecordingManagement.ts:1145-1159 | a CLOSE for another stream is ignored |
| `RecordingStream.CameraRecordingStream.ClosingTimeout` | src/lib/camera/RecordingManagement.ts:1237-1250 | the closing timer closes a stream that is still open |
| `RecordingStream.CameraRecordingStream.OnYield` | src/lib/camera/RecordingManagement.ts:1029-1083 | one round of the loop: leave it, fail on a dead socket, or send |
| `RecordingStream.CameraRecordingStream.Settle` | src/lib/camera/RecordingManagement.ts:1090-1125 | the catch and finally blocks |
| `RecordingStream.CameraRecordingStream.OnGeneratorEnd` | src/lib/camera/RecordingManagement.ts:1090-1125 | an error the loop was left with takes precedence |
| `RecordingStream.CameraRecordingStream.StartStreaming` | src/lib/camera/RecordingManagement.ts:1004-1015 | a stream begins only on a working connection |
| `RecordingStream.RecordingManagement.HandleDataSendOpen` | src/lib/camera/RecordingManagement.ts:543-603 | the refusals in the order of the checks, or a new current stream |
| `RecordingStream.RecordingManagement.HandleCameraActiveChange` | src/lib/camera/RecordingManagement.ts:516-527 | switching the camera off closes the current stream |
| `CharacteristicValues.Characteristic.SetMinValue` | src/lib/Characteristic.ts:1907-1942 | a minimum outside the format falls back to the bound of the format |
| `CharacteristicValues.Characteristic.SetMaxValue` | src/lib/Characteristic.ts:1944-1979 | so does a maximum |
| `CharacteristicValues.Characteristic.SetLists` | src/lib/Characteristic.ts:1981-2045 | an empty list of valid values or a range without two ends ends the call |
| `CharacteristicValues.Characteristic.SetProps` | src/lib/Characteristic.ts:1866-2057 | the outcome and the bounds after one call, crossed bounds being dropped together |
| `CharacteristicValues.BoundsAreSet` | src/lib/Characteristic.ts:1907-2057 | one call sets the bounds asked for, with the bound of the format for one that does not fit, and drops both if they cross |
| `CharacteristicValues.FormatBounds` | src/lib/util/request-util.ts:85-122 | the bounds of a format are those of its width, and symmetric for a float |
| `CharacteristicValues.UpdatesKeepOrder` | src/lib/Characteristic.ts:1907-2057 | after any accepted lists, bounds that are set satisfy lower <= minimum <= maximum <= upper |
| `CharacteristicValues.UpdateKeepsOrderIff` | src/lib/Characteristic.ts:1907-2057 | one call keeps that if and only if it does not hand in a rejected list together with crossing bounds |
| `CharacteristicValues.RejectedListCrossesBounds` | src/lib/Characteristic.ts:2026-2057 | a concrete call that throws and leaves the bounds crossed |
| `StepGrid.FloorToIff` | src/lib/Characteristic.ts:2834-2840 | flooring gives the greatest point of the grid that is not above |
| `StepGrid.RoundToIff` | src/lib/Characteristic.ts:2834-2840 | rounding gives the point within half a step, halves going up |
| `StepGrid.RoundToMonotone` | src/lib/Characteristic.ts:2834-2840 | rounding keeps the order |
| `CharacteristicValidation.AdjustedMonotone` | src/lib/Characteristic.ts:2824-2849 | the numeric sanitizer keeps the order of its inputs |
| `CharacteristicValidation.AdjustedInRangeIff` | src/lib/Characteristic.ts:2824-2849 | all its results lie between the declared bounds if and only if flooring leaves the maximum above the minimum |
| `CharacteristicValidation.AdjustedIdempotentIff` | src/lib/Characteristic.ts:2824-2849 | applying it twice equals applying it once if and only if rounding does not move the minimum up, or the floored maximum lies below the minimum |
| `CharacteristicValidation.AdjustedOnStepIff` | src/lib/Characteristic.ts:2824-2849 | all its results lie on the step grid if and only if the minimum does or can never be reached |
| `CharacteristicValidation.AdjustedIsProper` | src/lib/Characteristic.ts:2824-2849 | with ordered bounds and a minimum (or an unsigned format) the result is in range, on the grid and stable |
| `CharacteristicValidation.SignedWithoutMinimum` | src/lib/Characteristic.ts:2824-2849 | a signed format without a minimum breaks this (concrete properties) |
| `CharacteristicValidation.FixedIff` | src/lib/Characteristic.ts:2824-2849 | a value is left alone if and only if it is in range and on the grid |
| `CharacteristicValidation.InRangeIff` | src/lib/Characteristic.ts:2824-2825 | the range is given by the declared bounds and those of the format |
| `CharacteristicValidation.NumberIsStoredClosest` | src/lib/Characteristic.ts:2813-2849 | a finite number is stored as the value in range and on the step that is nearest to it, the higher of two |
| `CharacteristicValidation.ListDecides` | src/lib/Characteristic.ts:2851-2854 | a list of valid values lets through what it contains and falls back to the current value or to its first one |
| `CharacteristicValidation.RangeDecides` | src/lib/Characteristic.ts:2856-2866 | a valid range has the nearest of its values stored |
| `CharacteristicValidation.StoredAsNumber` | src/lib/Characteristic.ts:2813-2822 | booleans and readable strings are stored as the number they stand for, anything else as the current number or the minimum |
| `CharacteristicValidation.NoNumberKeepsCurrent` | src/lib/Characteristic.ts:2819-2822 | a value that stands for no number leaves an allowed current number alone |
| `CharacteristicValidation.BooleanIsTrueIff` | src/lib/Characteristic.ts:2793-2806 | four values count as true and all others as false |
| `CharacteristicValidation.TextIsStoredCut` | src/lib/Characteristic.ts:2870-2894 | a text is stored as its longest allowed prefix, a number is written out first, anything else keeps the current text |
| `CharacteristicValidation.ControllerNumberIff` | src/lib/Characteristic.ts:2666-2705 | a controller may write exactly the numbers in range and in the lists, as a boolean or a number |
| `CharacteristicValidation.ControllerOtherIff` | src/lib/Characteristic.ts:2655-2720 | which booleans and texts it may write, and as what they arrive |
| `CharacteristicValidation.ValidValues` | src/lib/Characteristic.ts:646-684 | the iterator's strategy and what it yields, in order and without repeats |
| `CharacteristicValidation.EachStep` | src/lib/Characteristic.ts:679-681 | the loop yields the grid from the minimum up to the maximum |
| `CharacteristicValidation.EndlessWithoutStep` | src/lib/Characteristic.ts:679-681 | without a positive step the loop never passes its bound |
| `CharacteristicValidation.YieldsIff` | src/lib/Characteristic.ts:679-681 | with the step of the sanitizer, the iterator yields exactly its fixed points |
| `CharacteristicValidation.EnumerationExactIff` | src/lib/Characteristic.ts:655-684 | iterator and sanitizer agree on every value if and only if their steps agree or the range is too small to show it |
| `CharacteristicValidation.RangeEnumerationExactIff` | src/lib/Characteristic.ts:665-681 | with a valid range, the iterator yields exactly the values of the range the sanitizer leaves alone if and only if the range starts on the step and the step is one or the range holds one value |
| `CharacteristicValidation.UnsignedEnumerationExactIff` | src/lib/Characteristic.ts:664-677 | without both bounds, the iterator of an unsigned format yields exactly the values the sanitizer leaves alone if and only if the declared bound, if any, is that of the format and the step is one |
| `CharacteristicValidation.OneBoundIsIgnored` | src/lib/Characteristic.ts:664-677 | with one bound only, the iterator of an unsigned format ignores it (concrete properties) |
| `CharacteristicValidation.StoredIsAccepted` | src/lib/Characteristic.ts:2649-2717 | whatever the sanitizer stores, the client-value validator accepts unchanged |
| `CharacteristicValidation.ChecksAgreeIff` | src/lib/Characteristic.ts:2649-2895 | without lists the two agree on every input if and only if flooring leaves the maximum above the minimum |
| `CharacteristicValidation.StoringIsIdempotent` | src/lib/Characteristic.ts:2792-2895 | storing a stored value again changes nothing |
| `RequestAggregator.SizesTellDuplicates` | src/lib/Accessory.ts:1548-1553 | comparing the sizes of request and set finds exactly the requests with duplicates |
| `RequestAggregator.AnsweredExactlyOnce` | src/lib/Accessory.ts:1544-1635 | for every order of completions and timer stages, a request is answered once, exactly when all have completed or the second timer fires, with the answer read off the events |
| `RequestAggregator.AnswerNamesEachOnce` | src/lib/Accessory.ts:1571-1598 | the answer names no id twice; values come from completions; an id is left out only if it neither completed nor could be resolved |
| `RequestAggregator.NothingLost` | src/lib/Accessory.ts:1544-1635 | until the answer, every requested id is either missing or collected |
| `RequestAggregator.WarningsIff` | src/lib/Accessory.ts:1700-1749 | on every run, a timer warns about exactly the ids that are outstanding and can be resolved, once each, and says which of the two it was |
| `RequestAggregator.LateEventsIgnored` | src/lib/Accessory.ts:1617-1620 | after the answer, completions and timers change nothing |
| `RequestAggregator.Aggregator.HandleRequest` | src/lib/Accessory.ts:1718-1731 | duplicates are refused, everything else starts the first timer |
| `RequestAggregator.Aggregator.Settle` | src/lib/Accessory.ts:1616-1633 | a completion is collected and the last one answers |
| `RequestAggregator.Aggregator.WarnSlow` | src/lib/Accessory.ts:1731-1747 | the first timer warns about what is missing and starts the second |
| `RequestAggregator.Aggregator.GiveUp` | src/lib/Service.ts:869-881 | the second timer answers with what is there and a timeout for the rest |
| `EventSubscriptions.SubscriptionsAreRegistrations` | src/lib/Characteristic.ts:2576-2595 | on every run the count is the number of registered connections plus the closes that found no characteristic, so the clamp never acts |
| `EventSubscriptions.CountExactIff` | src/lib/Accessory.ts:1963-1978 | the count is exact if and only if no registered connection closed while the characteristic could not be found |
| `EventSubscriptions.RegisteredIff` | src/lib/Accessory.ts:1833-1864 | on every run, a connection is registered if and only if the last of its requests that was heeded asked for events and it has not closed since |
| `EventSubscriptions.RefusalIff` | src/lib/Accessory.ts:1833-1855 | which of the three reasons refuses a request |
| `EventSubscriptions.EmissionsAreEdges` | src/lib/Characteristic.ts:2576-2595 | SUBSCRIBE and UNSUBSCRIBE are emitted exactly at the changes between nobody and somebody |
| `EventSubscriptions.EmissionsAlternate` | src/lib/Characteristic.ts:2576-2595 | they alternate, whatever is lost |
| `EventSubscriptions.Accessory.HandleEventWrite` | src/lib/Accessory.ts:1833-1864 | the refusals, and the new registrations and counters |
| `EventSubscriptions.Accessory.UnsubscribeFromAll` | src/lib/Accessory.ts:1963-1977 | the loop unsubscribes once from every characteristic found |
| `EventSubscriptions.Accessory.HandleHAPConnectionClosed` | src/lib/Accessory.ts:1963-1979 | the closed connection is registered for nothing any more |
| `TimedWrites.OneTimerPerPid` | src/lib/HAPServer.ts:1098-1112 | on every run a pid is set exactly when its one expiry timer is armed |
| `TimedWrites.AuthenticatedIff` | src/lib/Accessory.ts:1703-1716 | a write counts as prepared if and only if it carries the pid of the latest preparation, not expired and not used |
| `TimedWrites.PreparationsServeOnce` | src/lib/Accessory.ts:1703-1716 | between two writes that count as prepared another preparation was accepted, and the second write carries the pid of that one |
| `TimedWrites.PreparesIff` | src/lib/HAPServer.ts:1084-1125 | a preparation takes effect if and only if it is allowed and names a pid and a ttl |
| `TimedWrites.ItemsOnEveryRun` | src/lib/Accessory.ts:1813-1921 | on every run, the event flag set and the value handed over for each item, from the permissions and the preparation read off the events |
| `TimedWrites.StatusIs` | src/lib/Accessory.ts:1813-1921 | the first check that fails decides the status |
| `TimedWrites.NothingHandedOverUnprepared` | src/lib/Accessory.ts:1825-1905 | a characteristic that demands timed writes gets no value without a live preparation, and a rejected request changes nothing |
| `TimedWrites.DuplicatesRefusedIff` | src/lib/Accessory.ts:1703-1729 | naming a characteristic twice has the request refused and still uses up its preparation |
| `TimedWrites.HAPConnection.HandlePrepareWrite` | src/lib/HAPServer.ts:1084-1125 | a preparation replaces the one before; a missing pid or ttl changes nothing |
| `TimedWrites.HAPConnection.HandleCharacteristicWrite` | src/lib/Accessory.ts:1813-1921 | what one item comes to, check by check |
| `TimedWrites.HAPConnection.HandleSetCharacteristics` | src/lib/Accessory.ts:1700-1782 | the preparation is consumed first, then duplicates are refused, then every item is handled in order |
| `Pairings.AddingDrifts` | src/lib/model/AccessoryInfo.ts:82-92 | adding a client puts the number of administrators off by one more if and only if that client was one before |
| `Pairings.RemovingCounts` | src/lib/model/AccessoryInfo.ts:124-141 | a removal keeps the count; nobody is left exactly when no administrator is |
| `Pairings.AdministrationKeepsDrift` | src/lib/Accessory.ts:1456-1495 | administration never changes by how much the number is off |
| `Pairings.AdministrationNeedsAdmins` | src/lib/Accessory.ts:1456-1495 | without an administrator it changes nothing |
| `Pairings.AddRequestedIff` | src/lib/Accessory.ts:1456-1482 | a request to add is refused exactly without an administrator or with another key for a known client; granted, it leaves the client with key and permission asked for, and nobody else is touched |
| `Pairings.RemoveRequestedIff` | src/lib/Accessory.ts:1484-1511 | a request to remove leaves all others as they were, unless no administrator would be left |
| `Pairings.AdministratorStaysIff` | src/lib/Accessory.ts:1456-1495 | an administrator stays unless the only one gives up its own permission |
| `Pairings.AccessoryInfo.UpdatePermission` | src/lib/model/AccessoryInfo.ts:94-107 | the new registry, and the count adjusted |
| `Pairings.AccessoryInfo.RemoveEverybody` | src/lib/model/AccessoryInfo.ts:127-131 | the loop that removes whoever is left |
| `Pairings.AccessoryInfo.RemovePairedClient` | src/lib/model/AccessoryInfo.ts:124-132 | everybody goes with the last administrator, and the connections of all who went are told to close |
| `Pairings.AccessoryInfo.HandleAddPairing` | src/lib/Accessory.ts:1456-1482 | the refusals and the new registry |
| `Pairings.AccessoryInfo.HandleRemovePairing` | src/lib/Accessory.ts:1484-1511 | the refusal and the new registry |
| `PairSetup.StepKeeps` | src/lib/HAPServer.ts:476-684 | every event keeps phases, SRP servers, accepted proofs and pairings consistent |
| `PairSetup.RequestIs` | src/lib/HAPServer.ts:476-684 | what each message does in each phase: the next phase, the attempts counted, the client paired |
| `PairSetup.GenerationIs` | src/lib/HAPServer.ts:524-532 | a key that is ready becomes the new SRP server and waits for its proof; one that fails changes nothing else |
| `PairSetup.AdministrationIs` | src/lib/Accessory.ts:1456-1511 | administration changes who is paired as far as an administrator asks for it, and no connection |
| `PairSetup.OthersAreLeft` | src/lib/HAPServer.ts:476-684 | an event leaves every other connection as it is |
| `PairSetup.ProofBehindM4` | src/lib/HAPServer.ts:519-564 | behind every connection in M4 stands an accepted proof for its current SRP server, even when keys arrive late |
| `PairSetup.PairNeedsProof` | src/lib/HAPServer.ts:566-684 | PAIR is emitted only from M4, for the current SRP server whose proof was accepted |
| `PairSetup.SessionsPairOnce` | src/lib/HAPServer.ts:648-684 | one SRP server pairs at most one client |
| `PairSetup.FailuresAreCounted` | src/lib/HAPServer.ts:548-558 | the counter is the number of wrong proofs looked at |
| `PairSetup.AttemptsAreLimited` | src/lib/HAPServer.ts:483-489 | no more than 101 wrong proofs are looked at, and after that nobody is paired |
| `PairSetup.LimitIsReached` | src/lib/HAPServer.ts:483-489 | 101 is reached by one connection |
| `PairSetup.PairsOnlyTheUnpaired` | src/lib/HAPServer.ts:476-482 | with insecure requests off, PAIR is emitted only while nobody is paired |
| `PairSetup.OnePairBetweenUnpairings` | src/lib/Accessory.ts:1438-1454 | with insecure requests off, between any two PAIRs lies a removal that leaves no client |
| `PairSetup.RepairingsAreMiscounted` | src/lib/Accessory.ts:1438-1495 | on every run, insecure requests or not, the number of administrators is off by the number of PAIRs for clients that were administrators already; it is right if and only if there was none |
| `PairSetup.AdministratorsAreCounted` | src/lib/Accessory.ts:1438-1495 | with insecure requests off there is no such PAIR, so the number is right on every run |
| `PairSetup.LockedOut` | src/lib/Accessory.ts:1456-1495 | once the only administrator has given up its permission, who is paired never changes again |
| `PairSetup.HAPServer.HandlePairSetup` | src/lib/HAPServer.ts:476-517 | the gates and the dispatch by phase |
| `PairSetup.HAPServer.OnKeyGenerated` | src/lib/HAPServer.ts:524-532 | a key that is ready replaces the SRP server and goes to M2, whatever the phase |
| `PairSetup.HAPServer.HandlePairSetupM3` | src/lib/HAPServer.ts:541-564 | a wrong proof is counted and resets, a right one goes to M4, a bad public key throws |
| `PairSetup.HAPServer.HandlePairSetupM5` | src/lib/HAPServer.ts:566-684 | every bad packet resets, a good one pairs |
| `PairVerify.StepKeeps` | src/lib/HAPServer.ts:686-829 | every event keeps authenticated connections known |
| `PairVerify.AuthenticatedIsPaired` | src/lib/util/eventedhttp.ts:286-294 | on every run an authenticated connection belongs to a client that is paired |
| `PairVerify.AuthenticatesIff` | src/lib/HAPServer.ts:747-829 | on every run, a connection becomes authenticated if and only if M3 carries a signature over its last M1 and the client name, made with the very key the client is paired with |
| `PairVerify.VerifyingIff` | src/lib/HAPServer.ts:715-829 | M1 makes a connection wait for M3, which ends that unless the verification throws |
| `PairVerify.LinkIs` | src/lib/util/eventedhttp.ts:286-294 | on every run, what changes the state of a connection: its proof, its socket, or the removal of a client it is listed under |
| `PairVerify.ListedIff` | src/lib/util/eventedhttp.ts:247-254 | under which clients a connection is listed |
| `PairVerify.AdministrationIff` | src/lib/Accessory.ts:1456-1511 | only an administrator connection changes who is paired, besides Pair Setup |
| `PairVerify.NoReplay` | src/lib/HAPServer.ts:747-829 | a signature that authenticated once is never accepted again, on any connection |
| `PairVerify.HAPConnection.CloseConnectionAsOfUnpair` | src/lib/util/eventedhttp.ts:486-495 | the initiator is torn down after its response, everybody else is closed |
| `PairVerify.EventedHTTPServer.HandleConnectionAuthenticated` | src/lib/util/eventedhttp.ts:247-254 | the connection is listed once under its client |
| `PairVerify.EventedHTTPServer.DestroyExistingConnectionsAfterUnpair` | src/lib/util/eventedhttp.ts:286-294 | every connection listed under the client is told to close |
| `PairVerify.HAPServer.HandlePairVerifyM1` | src/lib/HAPServer.ts:715-745 | a usable key starts a new session, at any time |
| `PairVerify.HAPServer.HandlePairVerifyM3` | src/lib/HAPServer.ts:747-829 | authenticated if and only if the client is paired and signed this session |
| `RtpSessions.HandleKeeps` | src/lib/camera/RTPStreamManagement.ts:720-1177 | every event keeps status, connection, session and the delegate's view of them in agreement |
| `RtpSessions.StepKeeps` | src/lib/camera/RTPStreamManagement.ts:720-1177 | so does every event of several managements that share connections |
| `RtpSessions.AvailableHoldsNoConnection` | src/lib/camera/RTPStreamManagement.ts:1052-1054 | on every run the stream is in use exactly when a connection and a session are set, so the assertion never fails |
| `RtpSessions.AllowanceCountsHolders` | src/lib/camera/RTPStreamManagement.ts:724-728 | the extra listener allowance of a connection is the number of managements holding it, and zero once it closes |
| `RtpSessions.DelegateSeesTheSlot` | src/lib/camera/RTPStreamManagement.ts:1022-1061 | sessions never overlap, and START and RECONFIGURE name the open one |
| `RtpSessions.StopsNameTheActiveSession` | src/lib/camera/RTPStreamManagement.ts:1022-1031 | every STOP names the session active just before, and no session is stopped twice |
| `RtpSessions.ToldOnEveryRun` | src/lib/camera/RTPStreamManagement.ts:720-1177 | on every run, each event makes a management do to its slot and tell its delegate exactly what a table says |
| `RtpSessions.StartsAndReconfiguresIff` | src/lib/camera/RTPStreamManagement.ts:762-814 | START goes out exactly for a start request of the session in the slot that can be read, RECONFIGURE exactly for a reconfigure request |
| `RtpSessions.ResponseIs` | src/lib/camera/RTPStreamManagement.ts:643-742 | the response a controller reads next, and whether a configuration is selected |
| `RtpSessions.RequestsInFlight` | src/lib/camera/RTPStreamManagement.ts:1033-1167 | which preparations and stream requests are in flight after an event, and for which opening |
| `RtpSessions.CallbacksComeOnce` | src/lib/camera/RTPStreamManagement.ts:784-790 | a callback is not pending any more once it has come, and all others still are |
| `RtpSessions.LateCallbacksMeetNewerSessions` | src/lib/camera/RTPStreamManagement.ts:1152-1176 | a late failure or throw empties a newer opening without a STOP, and a late success answers with the older session, even if both have the same identifier (concrete run) |
| `RtpSessions.LateStreamCallbackMeetsNewerSession` | src/lib/camera/RTPStreamManagement.ts:784-790 | so does a late error of an END request (concrete run) |
| `RtpSessions.EmptiesAnotherOpeningIff` | src/lib/camera/RTPStreamManagement.ts:1152-1176 | on every run, a failed or thrown preparation or a stream request answered with an error empties another opening than its own if and only if the slot has been taken again since |
| `RtpSessions.AnswersForAnotherOpeningIff` | src/lib/camera/RTPStreamManagement.ts:1152-1176 | on every run, a preparation that succeeds answers with the session of its own opening; another one holds the slot then if and only if it has been taken again since |
| `RtpSessions.RTPStreamManagement.HandleSessionClosed` | src/lib/camera/RTPStreamManagement.ts:720-742 | the slot is emptied, the listener and its allowance go |
| `RtpSessions.RTPStreamManagement.HandleStopStream` | src/lib/camera/RTPStreamManagement.ts:1022-1031 | STOP names the session that was active |
| `RtpSessions.RTPStreamManagement.Destroy` | src/lib/camera/RTPStreamManagement.ts:651-655 | a held session is stopped |
| `RtpSessions.RTPStreamManagement.HandleSetupEndpoints` | src/lib/camera/RTPStreamManagement.ts:1033-1061 | busy, or the slot taken with listener and allowance; a request that fails to parse later keeps the slot |
| `RtpSessions.RTPStreamManagement.OnPrepareAnswered` | src/lib/camera/RTPStreamManagement.ts:1152-1166 | the callback answers or closes, whichever session is active |
| `RtpSessions.RTPStreamManagement.OnPrepareCaught` | src/lib/camera/RTPStreamManagement.ts:1167-1176 | the catch closes, whichever session is active |
| `RtpSessions.RTPStreamManagement.OnStreamAnswered` | src/lib/camera/RTPStreamManagement.ts:784-790 | an error closes, whichever session is active |
| `RtpSessions.RTPStreamManagement.HandleSelectedStreamConfigurationWrite` | src/lib/camera/RTPStreamManagement.ts:762-814 | the checks, and what each command does to slot and delegate |
| `Quarantine.IsValidPerms` | src/lib/Characteristic.ts:379-393 | valid if and only if a non-empty array of known permissions |
| `Quarantine.FindPermsViolation` | src/lib/Accessory.ts:950-960 | nothing if and only if everything is well-formed, else the first violation |
| `Quarantine.ServedIsTheFilter` | src/lib/Accessory.ts:986-1020 | the served list is the well-formed accessories in their order |
| `Quarantine.FitIsServed` | src/lib/Accessory.ts:1145-1176 | both builders hand out those accessories |
| `Quarantine.SecondPassIsSilent` | src/lib/Accessory.ts:986-1020 | after a build every flag equals the presence of a violation, and another build changes nothing |
| `Quarantine.UpdatesTerminate` | src/lib/Accessory.ts:1397-1415 | while the model stays as it is the enqueued update fires at most twice |
| `Quarantine.WarnedOnce` | src/lib/Accessory.ts:990-1008 | each malformed accessory is warned about once |
| `Quarantine.ModelChanges` | src/lib/Accessory.ts:650-690 | an accessory is added at the end exactly when there is room and its id is new; removals and changes leave the others in order, and all but silent changes enqueue an update |
| `Quarantine.BridgesStayOrderly` | src/lib/Accessory.ts:650-690 | on every run no two bridged accessories share an id and there are at most 149 |
| `Quarantine.HandedOutIsHashed` | src/lib/Accessory.ts:977-985 | whatever is handed out, the configuration hashed last lists the same accessories or an update is enqueued |
| `Quarantine.Accessory.Inspect` | src/lib/Accessory.ts:989-1017 | one round: the flag, the warning, the enqueued update and the list |
| `Quarantine.Accessory.InspectAll` | src/lib/Accessory.ts:989-1017 | the loop makes exactly these rounds |
| `Quarantine.Accessory.ServedBridgedAccessories` | src/lib/Accessory.ts:986-1020 | the served list, the flags, the warnings and whether an update is enqueued |
| `SetupPayload.Pad` | src/lib/Accessory.ts:933-937 | the padding loop, whose bound shrinks as it pads, adds (9 - digits) / 2 + 1 zeros |
| `SetupPayload.Encode` | src/lib/Accessory.ts:917-937 | the padded numeral still stands for the payload |
| `SetupPayload.NineCharactersIff` | src/lib/Accessory.ts:933-937 | nine characters if and only if the category is at least 1 and the number fits in nine digits |
| `SetupPayload.DefinedCategoriesFit` | src/lib/Accessory.ts:917-937 | every defined category does; the numeral then has seven digits |
| `SetupPayload.DecodeRecovers` | src/lib/Accessory.ts:917-931 | decoding recovers pincode and category |
| `SetupPayload.PayloadInjective` | src/lib/Accessory.ts:917-931 | no two inputs share a payload |
| `SetupPayload.Accessory.SetupUri` | src/lib/Accessory.ts:910-941 | the URI is built once and carries payload and setup id |
| `SetupPayload.UriRoundTrip` | src/lib/Accessory.ts:910-941 | a reader splits the URI at fixed positions and recovers everything in it |

## Left out

- Cryptography: SRP, ChaCha20-Poly1305, Ed25519 and HKDF are outcomes of a message; a signature counts as valid when it was made by the key the client is paired with, for the current session.
- Bytes on the wire: TLV8, JSON, HTTP and the splitting of event names into two numbers; requests arrive as records, and identifiers are natural numbers.
- Time: clocks are inputs of the events, and the length of a timeout plays no part beyond the distance of notifications.
- IEEE rounding: arithmetic is over the reals; the largest float is any non-negative number, and the upper bound of 64-bit integers is written as the language rounds it.
- Handlers and delegates that change the model re-entrantly while they are called, except a SET handler that disables Adaptive Lighting.
- Adaptive Lighting: the conversion of a temperature to hue and saturation, which is an input, and migration of stored transitions.
- AdaptiveLighting.AdaptiveLightingController.HandleActiveTransitionUpdated: the activeTransitionCount characteristic, which repeats whether a transition is active, and the state change delegate, because saving to disk is not modelled.
- RenewedTransitions.EveryUpdateIsScheduledIff: speaks of curves whose entries after the first have a positive transition time, because the source computes a value that is not a number at the end of any other; of requests handled in less time than the shortest of them; and of restores with no active transition, the only ones there are. CacheStaysSoundIff speaks of every step.
- RecordingStream: the connection being down is a parameter of the events that send, and requests on an id the data stream protocol does not know are not modelled.
- CharacteristicValues.Characteristic.SetProps: the format, unit, description, permissions, maxLen and adminOnlyAccess of an update, because the format is fixed here and they touch no number; and the current value being validated again at the end (lines 2062-2080), which changes no property and whose validation is the subject of CharacteristicValidation.
- CharacteristicValidation.StoredIsAccepted: null input, the DATA and TLV8 formats, and the Model and Serial Number characteristics that keep their old value.
- RequestAggregator: the handlers of single characteristics; a handler's promise completes at most once with some data. The listing of a service lets every id be resolved.
- RequestAggregator.Aggregator.HandleRequest: the 10 seconds and 9 seconds of the timers are not distinguished.
- EventSubscriptions: a characteristic replaced by another object under the same id; ids stay with their objects, which may disappear and come back.
- TimedWrites: what a characteristic does with a value handed to it; its answer is left to its handler.
- PairSetup: an HTTP response that throws while it is written; public keys with different bytes that decode to the same text.
- Pairings.AccessoryInfo.RemovePairedClient: user names that clash with properties every JavaScript object has.
- PairVerify: idle connections and the HTTP server behind a connection; LIST_PAIRINGS, which changes nothing.
- RtpSessions: RTP proxies, the contents of requests and responses, and a delegate that answers the same stream request twice. A START that makes the delegate throw is a request that does not parse.
- RtpSessions: a request served for a connection after its CLOSED event; such a session stays until one of the other events of `RtpSessions.FreedIff`.
- Quarantine: an accessory that is not published, for which the enqueued update hashes nothing; the hashed configuration is represented by the accessories it lists.
- Snapshots, advertisers, storage, generated definitions, HTTP response formatting and logging.
