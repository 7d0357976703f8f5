/** The life of HomeKit Secure Video recording streams: who may close one, in which order, and what is sent. */
module RecordingStream {
  import opened Wrappers
  import opened RecordingChunks

  type Reason = nat

  const NOT_ALLOWED: Reason := 1
  const BUSY: Reason := 2
  const CANCELLED: Reason := 3
  const UNEXPECTED_FAILURE: Reason := 5
  const INVALID_CONFIGURATION: Reason := 9

  /** What can end a generator with an error. */
  datatype Failure = SocketClosed | ProtocolError(reason: Reason) | Unexpected

  /** The delegate's generator: not asked for yet, being awaited, being awaited after the loop was left (with the
      error the loop was left with, if any), or done. */
  datatype Generator = Idle | Running | Returning(failure: Option<Failure>) | Finished

  datatype Cause = Acknowledged | RemoteClose(reason: Reason) | ConnectionLost | LocalClose(reason: Reason)

  /** The observable effects of a stream, in order. */
  datatype Output = Data(event: DataEvent) | CloseSent(reason: Reason) | Notified(cause: Cause) | ClosedEmitted

  datatype Stream = Stream(
    closed: bool,
    generator: Generator,
    generatorTimer: bool,
    closingTimer: bool,
    markedLast: bool,
    initial: bool,
    sequence: nat,
    output: seq<Output>,
    taken: seq<Packet>)  // history: the packets sent while the stream was open
  {
    predicate GeneratorActive() { generator.Running? || generator.Returning? }
  }

  const FRESH := Stream(false, Idle, false, false, false, true, 1, [], [])

  // ---------------------------------------------------------------- one stream

  function Closed(s: Stream, cause: Cause): Stream {
    if s.closed then s
    else s.(closed := true, closingTimer := false,
            generatorTimer := s.GeneratorActive() || s.generatorTimer,
            output := s.output + [Notified(cause), ClosedEmitted])
  }

  /** A local close also tells the other side, unless the connection is `down`. */
  function ClosedLocally(s: Stream, reason: Reason, down: bool): Stream {
    if s.closed then s
    else Closed(s.(output := s.output + (if down then [] else [CloseSent(reason)])), LocalClose(reason))
  }

  function CloseReason(f: Failure): Reason {
    if f.ProtocolError? then f.reason else UNEXPECTED_FAILURE
  }

  /** The generator is done and will never be awaited again. */
  function Settled(s: Stream, failure: Option<Failure>, down: bool): Stream {
    var failed := failure.Some? && failure != Some(SocketClosed);
    var s' := if failed then ClosedLocally(s, CloseReason(failure.value), down) else s;
    s'.(generator := Finished, generatorTimer := false, closingTimer := s'.closingTimer || !s'.closed)
  }

  function DataOutput(events: seq<DataEvent>): seq<Output> {
    seq(|events|, k requires 0 <= k < |events| => Data(events[k]))
  }

  function Yielded(s: Stream, packet: Packet, down: bool): Stream {
    if s.closed || s.markedLast then s.(generator := Returning(None))
    else if down && packet.data != [] then s.(generator := Returning(Some(SocketClosed)))
    else
      s.(generator := if packet.isLast then Returning(None) else Running,
         markedLast := packet.isLast,
         initial := s.initial && packet.data == [],
         sequence := if packet.isLast then s.sequence else s.sequence + 1,
         output := s.output + DataOutput(Chunks(packet, s.sequence, s.initial)),
         taken := s.taken + [packet])
  }

  /** A generator that was told to return keeps the error the loop was left with. */
  function GeneratorEnded(s: Stream, failure: Option<Failure>, down: bool): Stream {
    Settled(s, if s.generator.Returning? && s.generator.failure.Some? then s.generator.failure else failure, down)
  }

  datatype Start = Begins | Throws(failure: Failure)

  /** On a connection that is already down even the response throws, before the generator is asked for. */
  function Started(s: Stream, start: Start, down: bool): Stream {
    if down then s
    else
      match start
      case Begins => s.(generator := Running)
      case Throws(f) => Settled(s, Some(f), down)
  }

  // ---------------------------------------------------------------- the recording management

  datatype Management = Management(
    streams: seq<Stream>,
    current: Option<nat>,
    recordingActive: bool,
    cameraActive: bool,
    configured: bool)

  datatype Event =
    | Open(forUs: bool, start: Start, down: bool)
    | SetRecordingActive(active: bool)
    | SetCameraActive(active: bool, down: bool)
    | Configure(configured: bool)
    | OnStream(stream: nat, event: StreamEvent)

  datatype StreamEvent =
    | Ack
    | Close(matches: bool, reason: Reason)
    | ConnectionClosed
    | Yield(packet: Packet, down: bool)
    | End(failure: Option<Failure>, down: bool)
    | ClosingTimeout(down: bool)
    | GeneratorTimeout

  /** The reason an open request is turned down with, in the order the checks are made. */
  function Rejection(m: Management, forUs: bool): Option<Reason> {
    if !forUs then Some(UNEXPECTED_FAILURE)
    else if !m.recordingActive || !m.cameraActive then Some(NOT_ALLOWED)
    else if m.current.Some? then Some(BUSY)
    else if !m.configured then Some(INVALID_CONFIGURATION)
    else None
  }

  /** Stream `i` becomes `s`. Its listener forgets the current stream, whichever that is, when CLOSED is emitted. */
  function Replaced(m: Management, i: nat, s: Stream): Management
    requires i < |m.streams|
  {
    m.(streams := m.streams[i := s], current := if s.closed && !m.streams[i].closed then None else m.current)
  }

  /** A timer or a generator only has an effect while it is armed or awaited; everything else may arrive at any time,
      even at a stream that is closed already. */
  function Next(s: Stream, e: StreamEvent): Stream {
    match e
    case Ack => Closed(s, Acknowledged)
    case Close(matches, reason) => if matches then Closed(s, RemoteClose(reason)) else s
    case ConnectionClosed => Closed(s, ConnectionLost)
    case Yield(packet, down) => if s.generator.Running? then Yielded(s, packet, down) else s
    case End(failure, down) => if s.GeneratorActive() then GeneratorEnded(s, failure, down) else s
    case ClosingTimeout(down) => if s.closingTimer then ClosedLocally(s.(closingTimer := false), CANCELLED, down) else s
    case GeneratorTimeout => s.(generatorTimer := false)
  }

  function Step(m: Management, e: Event): Management {
    match e
    case Open(forUs, start, down) =>
      if Rejection(m, forUs).Some? then m
      else
        var started := m.(streams := m.streams + [FRESH], current := Some(|m.streams|));
        Replaced(started, |m.streams|, Started(FRESH, start, down))
    case SetRecordingActive(active) => m.(recordingActive := active)
    case Configure(configured) => m.(configured := configured)
    case SetCameraActive(active, down) =>
      var m' := m.(cameraActive := active);
      if !active && m.current.Some? && m.current.value < |m.streams|
      then Replaced(m', m.current.value, ClosedLocally(m.streams[m.current.value], NOT_ALLOWED, down))
      else m'
    case OnStream(i, event) => if i < |m.streams| then Replaced(m, i, Next(m.streams[i], event)) else m
  }

  const INITIAL := Management([], None, false, true, false)

  function Run(events: seq<Event>): Management {
    if events == [] then INITIAL else Step(Run(events[..|events| - 1]), events[|events| - 1])
  }

  // ---------------------------------------------------------------- what holds of every stream

  function DataEvents(output: seq<Output>): seq<DataEvent> {
    if output == [] then []
    else
      var before := DataEvents(output[..|output| - 1]);
      var last := output[|output| - 1];
      if last.Data? then before + [last.event] else before
  }

  /** The closing routine has left its mark at the end of the output, and nothing was sent since. */
  ghost predicate ClosedProperly(output: seq<Output>) {
    && |output| >= 2 && output[|output| - 1].ClosedEmitted? && output[|output| - 2].Notified?
    && Untouched(output[..|output| - 2])
  }

  /** No trace of the closing routine, except that the other side may have been told. */
  ghost predicate Untouched(output: seq<Output>) {
    forall k :: 0 <= k < |output| ==> !output[k].Notified? && !output[k].ClosedEmitted?
  }

  /** The closing routine runs once, and nothing is sent after it. */
  ghost predicate OutputInOrder(s: Stream) {
    if s.closed then ClosedProperly(s.output) else forall k :: 0 <= k < |s.output| ==> s.output[k].Data?
  }

  /** The timers watch exactly what still has to happen. */
  ghost predicate NothingLeaks(s: Stream) {
    && (s.closingTimer ==> !s.closed && s.generator.Finished?)
    && (s.generatorTimer ==> s.closed && s.GeneratorActive())
    && (s.generator.Finished? ==> s.closed || s.closingTimer)
  }

  /** The data sent is the cut-up form of the packets taken. */
  ghost predicate SendsTaken(s: Stream) {
    && DataEvents(s.output) == Sent(s.taken)
    && OnlyFinalIsLast(s.taken) && s.markedLast == Ended(s.taken)
    && s.sequence == (if s.markedLast then |s.taken| else |s.taken| + 1)
    && (s.initial <==> Sent(s.taken) == [])
    && (s.generator.Running? ==> !s.markedLast)
  }

  ghost predicate StreamInvariant(s: Stream) {
    OutputInOrder(s) && NothingLeaks(s) && SendsTaken(s)
  }

  ghost predicate Invariant(m: Management) {
    && (forall i :: 0 <= i < |m.streams| ==> StreamInvariant(m.streams[i]))
    && (forall i :: 0 <= i < |m.streams| ==> (!m.streams[i].closed <==> m.current == Some(i)))
    && (m.current.Some? ==> m.current.value < |m.streams|)
  }

  lemma {:induction false} DataEventsAppend(a: seq<Output>, b: seq<Output>)
    ensures DataEvents(a + b) == DataEvents(a) + DataEvents(b)
    decreases |b|
  {
    if b == [] {
      assert a + b == a;
    } else {
      assert (a + b)[..|a + b| - 1] == a + b[..|b| - 1];
      DataEventsAppend(a, b[..|b| - 1]);
    }
  }

  lemma {:induction false} DataEventsOfData(events: seq<DataEvent>)
    ensures DataEvents(DataOutput(events)) == events
  {
    if events != [] {
      assert DataOutput(events)[..|events| - 1] == DataOutput(events[..|events| - 1]);
      DataEventsOfData(events[..|events| - 1]);
    }
  }

  lemma ClosedOutput(output: seq<Output>, reason: Option<Reason>, cause: Cause) returns (output': seq<Output>)
    requires forall k :: 0 <= k < |output| ==> output[k].Data?
    ensures output'
      == output + (if reason.Some? then [CloseSent(reason.value)] else []) + [Notified(cause), ClosedEmitted]
    ensures ClosedProperly(output') && DataEvents(output') == DataEvents(output)
  {
    var told := output + (if reason.Some? then [CloseSent(reason.value)] else []);
    output' := told + [Notified(cause), ClosedEmitted];
    assert output'[..|output'| - 2] == told;
    assert output'[..|output'| - 1] == told + [Notified(cause)];
    assert (told + [Notified(cause)])[..|told|] == told;
    assert DataEvents(output') == DataEvents(output'[..|output'| - 1]) == DataEvents(told);
    if reason.Some? { assert told[..|told| - 1] == output; } else { assert told == output; }
  }

  lemma ClosedKeeps(s: Stream, cause: Cause)
    requires StreamInvariant(s)
    ensures StreamInvariant(Closed(s, cause)) && Closed(s, cause).closed
  {
    if !s.closed {
      var output := ClosedOutput(s.output, None, cause);
      assert output == s.output + [Notified(cause), ClosedEmitted];
    }
  }

  lemma ClosedLocallyKeeps(s: Stream, reason: Reason, down: bool)
    requires StreamInvariant(s)
    ensures StreamInvariant(ClosedLocally(s, reason, down)) && ClosedLocally(s, reason, down).closed
  {
    if !s.closed {
      var output := ClosedOutput(s.output, if down then None else Some(reason), LocalClose(reason));
      assert output
        == s.output + (if down then [] else [CloseSent(reason)]) + [Notified(LocalClose(reason)), ClosedEmitted];
    }
  }

  lemma SettledKeeps(s: Stream, failure: Option<Failure>, down: bool)
    requires StreamInvariant(s)
    ensures StreamInvariant(Settled(s, failure, down))
  {
    if failure.Some? { ClosedLocallyKeeps(s, CloseReason(failure.value), down); }
  }

  lemma YieldedKeeps(s: Stream, packet: Packet, down: bool)
    requires StreamInvariant(s) && s.generator.Running?
    ensures StreamInvariant(Yielded(s, packet, down))
  {
    YieldedInOrder(s, packet, down);
    if !s.closed && !(down && packet.data != []) {
      YieldedSends(s, packet, down);
    }
  }

  lemma YieldedInOrder(s: Stream, packet: Packet, down: bool)
    requires OutputInOrder(s) && NothingLeaks(s) && s.generator.Running?
    ensures OutputInOrder(Yielded(s, packet, down)) && NothingLeaks(Yielded(s, packet, down))
  {
  }

  lemma YieldedSends(s: Stream, packet: Packet, down: bool)
    requires SendsTaken(s) && s.generator.Running? && !s.closed && !(down && packet.data != [])
    ensures SendsTaken(Yielded(s, packet, down))
  {
    var chunks := Chunks(packet, s.sequence, s.initial);
    var taken := s.taken + [packet];
    assert taken[..|taken| - 1] == s.taken;
    assert Sent(taken) == Sent(s.taken) + chunks;
    DataEventsAppend(s.output, DataOutput(chunks));
    DataEventsOfData(chunks);
    assert |chunks| == 0 <==> packet.data == [];
  }

  lemma EndedKeeps(s: Stream, failure: Option<Failure>, down: bool)
    requires StreamInvariant(s)
    ensures StreamInvariant(GeneratorEnded(s, failure, down))
  {
    SettledKeeps(s, failure, down);
    if s.generator.Returning? { SettledKeeps(s, s.generator.failure, down); }
  }

  lemma NextKeeps(s: Stream, e: StreamEvent)
    requires StreamInvariant(s)
    ensures StreamInvariant(Next(s, e))
    ensures s.closed ==> Next(s, e).closed
  {
    match e
    case Ack => ClosedKeeps(s, Acknowledged);
    case Close(_, reason) => ClosedKeeps(s, RemoteClose(reason));
    case ConnectionClosed => ClosedKeeps(s, ConnectionLost);
    case Yield(packet, down) => if s.generator.Running? { YieldedKeeps(s, packet, down); }
    case End(failure, down) => EndedKeeps(s, failure, down);
    case ClosingTimeout(down) => ClosingTimeoutKeeps(s, down);
    case GeneratorTimeout => GeneratorTimeoutKeeps(s);
  }

  lemma GeneratorTimeoutKeeps(s: Stream)
    requires StreamInvariant(s)
    ensures StreamInvariant(s.(generatorTimer := false))
  {
  }

  lemma ClosingTimeoutKeeps(s: Stream, down: bool)
    requires StreamInvariant(s)
    ensures s.closingTimer ==> StreamInvariant(ClosedLocally(s.(closingTimer := false), CANCELLED, down))
  {
    ClosedLocallyKeeps(s, CANCELLED, down);
    assert s.closingTimer
      ==> ClosedLocally(s.(closingTimer := false), CANCELLED, down) == ClosedLocally(s, CANCELLED, down);
  }

  // ---------------------------------------------------------------- every run

  lemma ReplacedKeeps(m: Management, i: nat, s: Stream)
    requires Invariant(m) && i < |m.streams|
    requires StreamInvariant(s) && (m.streams[i].closed ==> s.closed)
    ensures Invariant(Replaced(m, i, s))
  {
  }

  lemma StartedKeeps(start: Start, down: bool)
    ensures StreamInvariant(Started(FRESH, start, down))
  {
    if start.Throws? { SettledKeeps(FRESH, Some(start.failure), down); }
  }

  lemma OpenKeeps(m: Management, start: Start, down: bool)
    requires Invariant(m) && m.current == None
    ensures var started := m.(streams := m.streams + [FRESH], current := Some(|m.streams|));
      Invariant(Replaced(started, |m.streams|, Started(FRESH, start, down)))
  {
    var started := m.(streams := m.streams + [FRESH], current := Some(|m.streams|));
    assert StreamInvariant(FRESH);
    assert Invariant(started);
    StartedKeeps(start, down);
    ReplacedKeeps(started, |m.streams|, Started(FRESH, start, down));
  }

  lemma CameraKeeps(m: Management, active: bool, down: bool)
    requires Invariant(m)
    ensures Invariant(Step(m, SetCameraActive(active, down)))
  {
    if m.current.Some? {
      ClosedLocallyKeeps(m.streams[m.current.value], NOT_ALLOWED, down);
      ReplacedKeeps(m.(cameraActive := active), m.current.value,
                    ClosedLocally(m.streams[m.current.value], NOT_ALLOWED, down));
    }
  }

  lemma StepKeeps(m: Management, e: Event)
    requires Invariant(m)
    ensures Invariant(Step(m, e))
  {
    match e
    case Open(forUs, start, down) => if Rejection(m, forUs).None? { OpenKeeps(m, start, down); }
    case SetRecordingActive(_) =>
    case Configure(_) =>
    case SetCameraActive(active, down) => CameraKeeps(m, active, down);
    case OnStream(i, event) =>
      if i < |m.streams| {
        NextKeeps(m.streams[i], event);
        ReplacedKeeps(m, i, Next(m.streams[i], event));
      }
  }

  lemma {:induction false} RunKeeps(events: seq<Event>)
    ensures Invariant(Run(events))
  {
    if events != [] {
      RunKeeps(events[..|events| - 1]);
      StepKeeps(Run(events[..|events| - 1]), events[|events| - 1]);
    }
  }

  function CountNotified(output: seq<Output>): nat {
    if output == [] then 0
    else CountNotified(output[..|output| - 1]) + if output[|output| - 1].Notified? then 1 else 0
  }

  function CountClosed(output: seq<Output>): nat {
    if output == [] then 0
    else CountClosed(output[..|output| - 1]) + if output[|output| - 1].ClosedEmitted? then 1 else 0
  }

  lemma {:induction false} UntouchedCounts(output: seq<Output>)
    requires Untouched(output)
    ensures CountNotified(output) == CountClosed(output) == 0
  {
    if output != [] { UntouchedCounts(output[..|output| - 1]); }
  }

  lemma ClosedCounts(output: seq<Output>)
    requires ClosedProperly(output)
    ensures CountNotified(output) == CountClosed(output) == 1
    ensures forall k :: 0 <= k < |output| - 1 ==> !output[k].ClosedEmitted?
  {
    var before := output[..|output| - 2];
    UntouchedCounts(before);
    assert output[..|output| - 1][..|output| - 2] == before;
    forall k | 0 <= k < |output| - 1 ensures !output[k].ClosedEmitted? {
      if k < |before| { assert output[k] == before[k]; }
    }
  }

  /** In every interleaving, a stream notifies its delegate and emits CLOSED once if it is closed and not at all if it
      is open, and it sends no data after CLOSED. */
  lemma ClosesExactlyOnce(events: seq<Event>, i: nat)
    requires i < |Run(events).streams|
    ensures var s := Run(events).streams[i];
      && CountNotified(s.output) == CountClosed(s.output) == (if s.closed then 1 else 0)
      && forall j, k :: 0 <= j < k < |s.output| && s.output[j].ClosedEmitted? ==> !s.output[k].Data?
  {
    RunKeeps(events);
    var s := Run(events).streams[i];
    assert OutputInOrder(s);
    if s.closed { ClosedCounts(s.output); } else { UntouchedCounts(s.output); }
  }

  /** At most one stream is open, and the management knows which: an old stream closing late never makes it forget a
      newer one. */
  lemma CurrentIsTheOpenStream(events: seq<Event>, i: nat)
    requires i < |Run(events).streams|
    ensures !Run(events).streams[i].closed <==> Run(events).current == Some(i)
  {
    RunKeeps(events);
  }

  /** The request that opened stream `i`. */
  ghost function OpeningOf(events: seq<Event>, i: nat): (e: Event)
    requires i < |Run(events).streams|
    ensures e.Open?
  {
    var earlier := events[..|events| - 1];
    if i < |Run(earlier).streams| then OpeningOf(earlier, i) else events[|events| - 1]
  }

  lemma IdleStays(m: Management, e: Event, i: nat)
    requires i < |m.streams|
    ensures i < |Step(m, e).streams|
    ensures Step(m, e).streams[i].generator.Idle? <==> m.streams[i].generator.Idle?
  {
    if e.OnStream? && e.stream == i { IdleStaysNext(m.streams[i], e.event); }
  }

  lemma IdleStaysNext(s: Stream, e: StreamEvent)
    ensures Next(s, e).generator.Idle? <==> s.generator.Idle?
  {
  }

  /** The generator of a stream is never asked for exactly when the connection was down already as it was opened. */
  lemma {:induction false} IdleIff(events: seq<Event>, i: nat)
    requires i < |Run(events).streams|
    ensures Run(events).streams[i].generator.Idle? <==> OpeningOf(events, i).down
  {
    var earlier, e := events[..|events| - 1], events[|events| - 1];
    if i < |Run(earlier).streams| {
      IdleIff(earlier, i);
      IdleStays(Run(earlier), e, i);
    }
  }

  /** An open stream is awaiting its generator or has its closing timer armed, unless it was opened on a connection
      that was down already, and exactly then; and the generator timer is armed only over a generator that is still
      awaited. */
  lemma NoStreamLeaks(events: seq<Event>, i: nat)
    requires i < |Run(events).streams|
    ensures var s := Run(events).streams[i];
      && (!s.closed ==> (s.GeneratorActive() || s.closingTimer <==> !OpeningOf(events, i).down))
      && (s.generatorTimer ==> s.GeneratorActive() && s.closed)
  {
    RunKeeps(events);
    IdleIff(events, i);
    assert NothingLeaks(Run(events).streams[i]);
  }

  /** An armed closing timer, a lost connection and a camera switched off each free the management for the next
      recording. */
  lemma ManagementIsFreed(m: Management, i: nat, e: Event)
    requires Invariant(m) && i < |m.streams| && !m.streams[i].closed
    requires || (e.OnStream? && e.stream == i && e.event.ClosingTimeout? && m.streams[i].closingTimer)
             || e == OnStream(i, ConnectionClosed)
             || (e.SetCameraActive? && !e.active)
    ensures Step(m, e).current == None && |Step(m, e).streams| == |m.streams| && Step(m, e).streams[i].closed
  {
  }

  // ---------------------------------------------------------------- which requests open a stream

  datatype Switch = Recording | Camera | Configuration

  /** The setting an event makes, if it is one of that kind. */
  function SettingOf(e: Event, which: Switch): Option<bool> {
    match (e, which)
    case (SetRecordingActive(active), Recording) => Some(active)
    case (SetCameraActive(active, _), Camera) => Some(active)
    case (Configure(configured), Configuration) => Some(configured)
    case _ => None
  }

  /** The setting made last; a camera starts active. */
  function LastSetting(events: seq<Event>, which: Switch): bool {
    if events == [] then which.Camera?
    else SettingOf(events[|events| - 1], which).GetOr(LastSetting(events[..|events| - 1], which))
  }

  lemma {:induction false} SettingsAreKept(events: seq<Event>)
    ensures Run(events).recordingActive == LastSetting(events, Recording)
    ensures Run(events).cameraActive == LastSetting(events, Camera)
    ensures Run(events).configured == LastSetting(events, Configuration)
  {
    if events != [] { SettingsAreKept(events[..|events| - 1]); }
  }

  /** On every run, a request opens a stream if and only if it asks for one the way the protocol says, recording and
      camera were switched on last, every earlier stream is closed and a configuration was selected last; the reason of
      a refusal is that of the first of these that fails, and a refused request changes nothing. */
  lemma OpensIff(events: seq<Event>, forUs: bool, start: Start, down: bool)
    ensures var (m, m') := (Run(events), Run(events + [Open(forUs, start, down)]));
      var active := LastSetting(events, Recording) && LastSetting(events, Camera);
      var busy := exists j :: 0 <= j < |m.streams| && !m.streams[j].closed;
      var configured := LastSetting(events, Configuration);
      && (|m'.streams| == |m.streams| + 1 <==> forUs && active && !busy && configured)
      && (|m'.streams| != |m.streams| + 1 ==> m' == m)
      && (Rejection(m, forUs) == Some(UNEXPECTED_FAILURE) <==> !forUs)
      && (Rejection(m, forUs) == Some(NOT_ALLOWED) <==> forUs && !active)
      && (Rejection(m, forUs) == Some(BUSY) <==> forUs && active && busy)
      && (Rejection(m, forUs) == Some(INVALID_CONFIGURATION) <==> forUs && active && !busy && !configured)
  {
    assert (events + [Open(forUs, start, down)])[..|events|] == events;
    RunKeeps(events);
    SettingsAreKept(events);
    var m := Run(events);
    if m.current.Some? { assert !m.streams[m.current.value].closed; }
  }

  // ---------------------------------------------------------------- what closes a stream, and what each side is told

  /** The error the loop of a generator ends with: the one it was left with comes first. */
  function FinalError(s: Stream, failure: Option<Failure>): Option<Failure> {
    match s.generator
    case Returning(Some(first)) => Some(first)
    case _ => failure
  }

  /** A socket that was closed is no error of its own. */
  function ErrorCause(error: Option<Failure>): Option<Cause> {
    match error
    case Some(ProtocolError(reason)) => Some(LocalClose(reason))
    case Some(Unexpected) => Some(LocalClose(UNEXPECTED_FAILURE))
    case _ => None
  }

  /** Why an event at a stream closes it while it is open, if it does. */
  function StreamCause(s: Stream, event: StreamEvent): Option<Cause> {
    match event
    case Ack => Some(Acknowledged)
    case Close(true, reason) => Some(RemoteClose(reason))
    case ConnectionClosed => Some(ConnectionLost)
    case ClosingTimeout(_) => if s.closingTimer then Some(LocalClose(CANCELLED)) else None
    case End(failure, _) =>
      if s.GeneratorActive() then ErrorCause(FinalError(s, failure)) else None
    case _ => None
  }

  function CauseOf(m: Management, i: nat, e: Event): Option<Cause>
    requires i < |m.streams|
  {
    match e
    case SetCameraActive(false, _) => Some(LocalClose(NOT_ALLOWED))
    case OnStream(j, event) => if j == i then StreamCause(m.streams[i], event) else None
    case _ => None
  }

  /** The other side is sent a CLOSE when the stream is closed from here and the connection still works. */
  function ClosingOutput(cause: Cause, down: bool): seq<Output> {
    (if cause.LocalClose? && !down then [CloseSent(cause.reason)] else []) + [Notified(cause), ClosedEmitted]
  }

  predicate IsDown(e: Event) {
    match e
    case SetCameraActive(_, down) => down
    case OnStream(_, event) => StreamIsDown(event)
    case _ => false
  }

  predicate StreamIsDown(event: StreamEvent) {
    match event
    case ClosingTimeout(down) => down
    case End(_, down) => down
    case _ => false
  }

  /** An open stream becomes `s'` by being closed for this cause, if there is one; a closed one is told nothing. */
  ghost predicate ClosedFor(s: Stream, s': Stream, cause: Option<Cause>, down: bool) {
    if s.closed then s'.closed && s'.output == s.output && s'.taken == s.taken
    else
      && (s'.closed <==> cause.Some?)
      && (cause.Some? ==> s'.output == s.output + ClosingOutput(cause.value, down))
  }

  /** An event closes an open stream if and only if there is a cause, and then delegate and other side are told just
      that; a closed stream is told nothing any more. */
  lemma ClosesIff(m: Management, i: nat, e: Event)
    requires Invariant(m) && i < |m.streams|
    ensures i < |Step(m, e).streams|
    ensures ClosedFor(m.streams[i], Step(m, e).streams[i], CauseOf(m, i, e), IsDown(e))
  {
    var s := m.streams[i];
    if e.OnStream? && e.stream == i {
      NextCloses(s, e.event);
    } else if e.SetCameraActive? && !e.active && !s.closed {
      ClosedLocallyTells(s, NOT_ALLOWED, e.down);
    } else {
      OthersChangeNothing(m, e, i);
    }
  }

  lemma OthersChangeNothing(m: Management, e: Event, i: nat)
    requires i < |m.streams| && !(e.OnStream? && e.stream == i)
    requires e.SetCameraActive? && !e.active ==> m.current != Some(i)
    ensures i < |Step(m, e).streams| && Step(m, e).streams[i] == m.streams[i]
  {
  }

  lemma ClosedLocallyTells(s: Stream, reason: Reason, down: bool)
    requires !s.closed
    ensures ClosedLocally(s, reason, down).closed
    ensures ClosedLocally(s, reason, down).output == s.output + ClosingOutput(LocalClose(reason), down)
  {
  }

  lemma NextCloses(s: Stream, event: StreamEvent)
    requires StreamInvariant(s)
    ensures ClosedFor(s, Next(s, event), StreamCause(s, event), StreamIsDown(event))
  {
    match event
    case Yield(packet, down) => YieldCloses(s, packet, down);
    case End(failure, down) => EndCloses(s, failure, down);
    case ClosingTimeout(down) =>
      if s.closingTimer { ClosedLocallyTells(s.(closingTimer := false), CANCELLED, down); }
    case _ =>
  }

  lemma YieldCloses(s: Stream, packet: Packet, down: bool)
    ensures ClosedFor(s, Next(s, Yield(packet, down)), None, false)
  {
  }

  lemma EndCloses(s: Stream, failure: Option<Failure>, down: bool)
    ensures ClosedFor(s, Next(s, End(failure, down)), StreamCause(s, End(failure, down)), down)
  {
    if s.GeneratorActive() {
      SettledCloses(s, FinalError(s, failure), down);
    }
  }

  lemma SettledCloses(s: Stream, error: Option<Failure>, down: bool)
    ensures ClosedFor(s, Settled(s, error, down), ErrorCause(error), down)
  {
    if error.Some? && !s.closed { ClosedLocallyTells(s, CloseReason(error.value), down); }
  }

  // ---------------------------------------------------------------- which packets are sent

  /** A packet without data sends nothing, so it does not notice a dead socket. */
  predicate Sendable(packet: Packet, down: bool) {
    !down || packet.data == []
  }

  /** What becomes of a generator: it is awaited until the stream turns out to be closed, the socket dead or the packet
      the last one, and done once it has ended. */
  function NextGenerator(g: Generator, closed: bool, event: StreamEvent): Generator {
    match event
    case Yield(packet, down) =>
      if !g.Running? then g
      else if closed then Returning(None)
      else if !Sendable(packet, down) then Returning(Some(SocketClosed))
      else if packet.isLast then Returning(None)
      else Running
    case End(_, _) => if g.Idle? then g else Finished
    case _ => g
  }

  /** The packet that is sent: it comes while the stream is open and its loop waits, and the socket takes it. */
  function NextPacket(g: Generator, closed: bool, event: StreamEvent): seq<Packet> {
    match event
    case Yield(packet, down) => if g.Running? && !closed && Sendable(packet, down) then [packet] else []
    case _ => []
  }

  /** The generator of stream `i`, read off the events. */
  ghost function GeneratorAfter(events: seq<Event>, i: nat): Generator
    requires i < |Run(events).streams|
  {
    var earlier, e := events[..|events| - 1], events[|events| - 1];
    if i >= |Run(earlier).streams| then FirstGenerator(e)
    else if e.OnStream? && e.stream == i then
      NextGenerator(GeneratorAfter(earlier, i), Run(earlier).streams[i].closed, e.event)
    else GeneratorAfter(earlier, i)
  }

  function FirstGenerator(e: Event): Generator {
    if !e.Open? || e.down then Idle else if e.start.Begins? then Running else Finished
  }

  /** The packets yielded to stream `i` that are sent, read off the events. */
  ghost function HandedOver(events: seq<Event>, i: nat): seq<Packet>
    requires i < |Run(events).streams|
  {
    var earlier, e := events[..|events| - 1], events[|events| - 1];
    if i >= |Run(earlier).streams| then []
    else if e.OnStream? && e.stream == i then
      HandedOver(earlier, i) + NextPacket(GeneratorAfter(earlier, i), Run(earlier).streams[i].closed, e.event)
    else HandedOver(earlier, i)
  }

  lemma NextTakes(s: Stream, event: StreamEvent)
    requires s.generator.Running? ==> !s.markedLast
    ensures Next(s, event).generator == NextGenerator(s.generator, s.closed, event)
    ensures Next(s, event).taken == s.taken + NextPacket(s.generator, s.closed, event)
  {
    assert s.taken + [] == s.taken;
    if event.Yield? && s.generator.Running? { YieldTakes(s, event.packet, event.down); }
  }

  lemma YieldTakes(s: Stream, packet: Packet, down: bool)
    requires s.generator.Running? && !s.markedLast
    ensures Yielded(s, packet, down).generator == NextGenerator(s.generator, s.closed, Yield(packet, down))
    ensures Yielded(s, packet, down).taken == s.taken + NextPacket(s.generator, s.closed, Yield(packet, down))
  {
    assert s.taken + [] == s.taken;
  }

  lemma StepTakes(m: Management, e: Event, i: nat)
    requires i < |m.streams|
    requires m.streams[i].generator.Running? ==> !m.streams[i].markedLast
    ensures i < |Step(m, e).streams|
    ensures var (s, s') := (m.streams[i], Step(m, e).streams[i]);
      if e.OnStream? && e.stream == i then
        && s'.generator == NextGenerator(s.generator, s.closed, e.event)
        && s'.taken == s.taken + NextPacket(s.generator, s.closed, e.event)
      else
        s'.generator == s.generator && s'.taken == s.taken
  {
    if e.OnStream? && e.stream == i { NextTakes(m.streams[i], e.event); }
  }

  lemma OpeningTakesNothing(m: Management, e: Event)
    requires |Step(m, e).streams| > |m.streams|
    ensures e.Open? && |Step(m, e).streams| == |m.streams| + 1
    ensures Step(m, e).streams[|m.streams|].taken == []
    ensures Step(m, e).streams[|m.streams|].generator == FirstGenerator(e)
  {
  }

  /** A stream that is opened is closed again right away exactly when asking for its generator throws, and then both
      sides are told why. */
  lemma OpeningClosesIff(m: Management, e: Event)
    requires |Step(m, e).streams| > |m.streams|
    ensures e.Open?
    ensures var cause := if e.down || e.start.Begins? then None else ErrorCause(Some(e.start.failure));
      ClosedFor(FRESH, Step(m, e).streams[|m.streams|], cause, e.down)
  {
    if !e.down && e.start.Throws? { SettledCloses(FRESH, Some(e.start.failure), e.down); }
  }

  lemma {:induction false} TakenIsHandedOver(events: seq<Event>, i: nat)
    requires i < |Run(events).streams|
    ensures Run(events).streams[i].generator == GeneratorAfter(events, i)
    ensures Run(events).streams[i].taken == HandedOver(events, i)
  {
    var earlier, e := events[..|events| - 1], events[|events| - 1];
    if i >= |Run(earlier).streams| {
      OpeningTakesNothing(Run(earlier), e);
    } else {
      TakenIsHandedOver(earlier, i);
      RunKeeps(earlier);
      assert SendsTaken(Run(earlier).streams[i]);
      StepTakes(Run(earlier), e, i);
    }
  }

  /** The generator timer is armed when a stream is closed over an awaited generator, until it fires or the generator is
      done. */
  lemma GeneratorTimerIff(m: Management, i: nat, e: Event)
    requires Invariant(m) && i < |m.streams|
    ensures i < |Step(m, e).streams|
    ensures var (s, s') := (m.streams[i], Step(m, e).streams[i]);
      s'.generatorTimer <==>
        s'.closed && s'.GeneratorActive() && (!s.closed || (s.generatorTimer && e != OnStream(i, GeneratorTimeout)))
  {
    assert NothingLeaks(m.streams[i]);
    if e.OnStream? && e.stream == i {
      StreamTimerIff(m.streams[i], e.event);
    } else if e.SetCameraActive? && !e.active && m.current == Some(i) {
      assert Step(m, e).streams[i] == ClosedLocally(m.streams[i], NOT_ALLOWED, e.down);
    } else {
      OthersChangeNothing(m, e, i);
    }
  }

  lemma StreamTimerIff(s: Stream, event: StreamEvent)
    requires NothingLeaks(s)
    ensures var s' := Next(s, event);
      s'.generatorTimer <==>
        s'.closed && s'.GeneratorActive() && (!s.closed || (s.generatorTimer && event != GeneratorTimeout))
  {
  }

  /** Whatever interrupts a stream, the data it has sent puts together exactly the packets that were yielded to it while
      its loop went on, as long as none of them was empty. */
  lemma SentDataReassembles(events: seq<Event>, i: nat)
    requires i < |Run(events).streams|
    ensures var packets := HandedOver(events, i);
      && OnlyFinalIsLast(packets)
      && (NonEmpty(packets) ==>
            Receive(NOTHING_RECEIVED, DataEvents(Run(events).streams[i].output)) == Some(ReceivedAll(packets)))
  {
    RunKeeps(events);
    TakenIsHandedOver(events, i);
    var packets := HandedOver(events, i);
    assert SendsTaken(Run(events).streams[i]);
    if NonEmpty(packets) { RoundTrip(packets); }
  }

  // ---------------------------------------------------------------- the objects

  /** A stream and the management that created it. Its methods change this stream and nothing of the management but
      the reference to the current stream, which `Replaced` describes for the whole system. */
  class CameraRecordingStream {
    const management: RecordingManagement
    var closed: bool
    var generator: Generator
    var generatorTimeout: bool
    var closingTimeout: bool
    var lastFragmentWasMarkedLast: bool
    var initialization: bool
    var dataSequenceNumber: nat
    ghost var output: seq<Output>
    ghost var taken: seq<Packet>

    ghost function View(): Stream
      reads this
    {
      Stream(closed, generator, generatorTimeout, closingTimeout, lastFragmentWasMarkedLast, initialization,
             dataSequenceNumber, output, taken)
    }

    constructor (management: RecordingManagement)
      ensures View() == FRESH && this.management == management
    {
      this.management, closed, generator := management, false, Idle;
      generatorTimeout, closingTimeout, lastFragmentWasMarkedLast := false, false, false;
      initialization, dataSequenceNumber, output, taken := true, 1, [], [];
    }

    /** The listener of the management forgets the current stream as part of the emit. */
    method HandleClosed(cause: Cause)
      requires management.Holds(this)
      modifies this, management`recordingStream
      ensures View() == Closed(old(View()), cause)
      ensures management.recordingStream == if closed && !old(closed) then null else old(management.recordingStream)
      ensures management.Holds(this)
    {
      if closed {
        return;
      }
      closed := true;
      closingTimeout := false;
      if generator.Running? || generator.Returning? {
        generatorTimeout := true;
      }
      output := output + [Notified(cause)];
      output := output + [ClosedEmitted];
      management.recordingStream := null;
      assert output == old(output) + [Notified(cause), ClosedEmitted];
    }

    method CloseLocally(reason: Reason, down: bool)
      requires management.Holds(this)
      modifies this, management`recordingStream
      ensures View() == ClosedLocally(old(View()), reason, down)
      ensures management.recordingStream == if closed && !old(closed) then null else old(management.recordingStream)
      ensures management.Holds(this)
    {
      if closed {
        return;
      }
      if !down {
        output := output + [CloseSent(reason)];
      }
      HandleClosed(LocalClose(reason));
      assert old(output) + [] == old(output);
    }

    method HandleDataSendAck()
      requires management.Holds(this)
      modifies this, management`recordingStream
      ensures View() == Closed(old(View()), Acknowledged)
      ensures management.recordingStream == if closed && !old(closed) then null else old(management.recordingStream)
      ensures management.Holds(this)
    {
      HandleClosed(Acknowledged);
    }

    method HandleDataSendClose(matches: bool, reason: Reason)
      requires management.Holds(this)
      modifies this, management`recordingStream
      ensures View() == if matches then Closed(old(View()), RemoteClose(reason)) else old(View())
      ensures management.recordingStream == if closed && !old(closed) then null else old(management.recordingStream)
      ensures management.Holds(this)
    {
      if !matches {
        return;
      }
      HandleClosed(RemoteClose(reason));
    }

    method HandleConnectionClosed()
      requires management.Holds(this)
      modifies this, management`recordingStream
      ensures View() == Closed(old(View()), ConnectionLost)
      ensures management.recordingStream == if closed && !old(closed) then null else old(management.recordingStream)
      ensures management.Holds(this)
    {
      HandleClosed(ConnectionLost);
    }

    method ClosingTimeout(down: bool)
      requires management.Holds(this) && closingTimeout
      modifies this, management`recordingStream
      ensures View() == ClosedLocally(old(View()).(closingTimer := false), CANCELLED, down)
      ensures management.recordingStream == if closed && !old(closed) then null else old(management.recordingStream)
      ensures management.Holds(this)
    {
      closingTimeout := false;
      if closed {
        return;
      }
      CloseLocally(CANCELLED, down);
    }

    /** One round of the `for await` loop. */
    method OnYield(packet: Packet, down: bool)
      requires generator.Running?
      modifies this
      ensures View() == Yielded(old(View()), packet, down)
    {
      if closed || lastFragmentWasMarkedLast {
        generator := Returning(None);
        return;
      }
      if down && |packet.data| > 0 {
        generator := Returning(Some(SocketClosed));
        return;
      }
      var chunks;
      chunks, initialization := SendPacket(packet, dataSequenceNumber, initialization);
      output := output + DataOutput(chunks);
      taken := taken + [packet];
      lastFragmentWasMarkedLast := packet.isLast;
      if packet.isLast {
        generator := Returning(None);
        return;
      }
      dataSequenceNumber := dataSequenceNumber + 1;
    }

    /** The `catch` and `finally` blocks of `_startStreaming`. */
    method Settle(failure: Option<Failure>, down: bool)
      requires management.Holds(this)
      modifies this, management`recordingStream
      ensures View() == Settled(old(View()), failure, down)
      ensures management.recordingStream == if closed && !old(closed) then null else old(management.recordingStream)
      ensures management.Holds(this)
    {
      if failure.Some? && !closed && !failure.value.SocketClosed? {
        CloseLocally(CloseReason(failure.value), down);
      }
      generator := Finished;
      generatorTimeout := false;
      if !closed {
        closingTimeout := true;
      }
    }

    method OnGeneratorEnd(failure: Option<Failure>, down: bool)
      requires management.Holds(this) && (generator.Running? || generator.Returning?)
      modifies this, management`recordingStream
      ensures View() == GeneratorEnded(old(View()), failure, down)
      ensures management.recordingStream == if closed && !old(closed) then null else old(management.recordingStream)
      ensures management.Holds(this)
    {
      if generator.Returning? && generator.failure.Some? {
        Settle(generator.failure, down);
      } else {
        Settle(failure, down);
      }
    }

    method StartStreaming(start: Start, down: bool)
      requires management.Holds(this)
      modifies this, management`recordingStream
      ensures View() == Started(old(View()), start, down)
      ensures management.recordingStream == if closed && !old(closed) then null else old(management.recordingStream)
      ensures management.Holds(this)
    {
      if down {
        return;
      }
      match start
      case Begins => generator := Running;
      case Throws(f) => Settle(Some(f), down);
    }
  }

  class RecordingManagement {
    var recordingStream: CameraRecordingStream?
    var recordingActive: bool
    var cameraActive: bool
    var configured: bool

    /** The part of the invariant one stream is responsible for. */
    ghost predicate Holds(s: CameraRecordingStream)
      reads this, s
    {
      s.management == this && (!s.closed <==> recordingStream == s)
    }

    constructor ()
      ensures recordingStream == null && !recordingActive && cameraActive && !configured
    {
      recordingStream, recordingActive, cameraActive, configured := null, false, true, false;
    }

    method HandleDataSendOpen(forUs: bool, start: Start, down: bool)
      returns (rejection: Option<Reason>, stream: CameraRecordingStream?)
      requires recordingStream != null ==> Holds(recordingStream)
      modifies this`recordingStream
      ensures rejection == (if !forUs then Some(UNEXPECTED_FAILURE)
                            else if !recordingActive || !cameraActive then Some(NOT_ALLOWED)
                            else if old(recordingStream) != null then Some(BUSY)
                            else if !configured then Some(INVALID_CONFIGURATION)
                            else None)
      ensures rejection.Some? ==> stream == null && recordingStream == old(recordingStream)
      ensures rejection.None? ==> fresh(stream) && Holds(stream) && stream.View() == Started(FRESH, start, down)
      ensures rejection.None? && stream.closed ==> recordingStream == null
    {
      stream := null;
      if !forUs {
        return Some(UNEXPECTED_FAILURE), null;
      }
      if !recordingActive {
        return Some(NOT_ALLOWED), null;
      }
      if !cameraActive {
        return Some(NOT_ALLOWED), null;
      }
      if recordingStream != null {
        return Some(BUSY), null;
      }
      if !configured {
        return Some(INVALID_CONFIGURATION), null;
      }
      stream := new CameraRecordingStream(this);
      recordingStream := stream;
      stream.StartStreaming(start, down);
      rejection := None;
    }

    method HandleCameraActiveChange(active: bool, down: bool)
      requires recordingStream != null ==> Holds(recordingStream)
      modifies this, recordingStream
      ensures cameraActive == active && recordingActive == old(recordingActive) && configured == old(configured)
      ensures !active ==> recordingStream == null
      ensures active ==> recordingStream == old(recordingStream)
      ensures old(recordingStream) != null ==>
        old(recordingStream).View() ==
          if active then old(recordingStream.View())
          else ClosedLocally(old(recordingStream.View()), NOT_ALLOWED, down)
    {
      cameraActive := active;
      if !active && recordingStream != null {
        recordingStream.CloseLocally(NOT_ALLOWED, down);
      }
    }
  }
}
