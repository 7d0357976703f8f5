/** The one session slot of an RTP stream management, changed by requests, by closing connections and by callbacks that
    may come late. Several managements share the connections. */
module RtpSessions {
  import opened Wrappers

  type Session = nat

  /** The SetupEndpoints response: reset, or a status that names a session. A success carries the endpoints that were
      prepared for one opening of the slot. */
  datatype Response = Unset | Busy(session: Session) | Failed(session: Session)
    | Success(session: Session, opening: nat)

  /** A preparation in flight: the opening it was made for, whether its callback has been called, and whether its
      `catch` has run. */
  datatype Prepare = Prepare(session: Session, opening: nat, answered: bool, caught: bool)

  /** A stream request the delegate was asked for during an opening, or right after it. */
  datatype Callback = Callback(opening: nat, answered: bool)

  datatype Entry =
    | Opened(session: Session)
    | Released(session: Session)
    | Start(sessionOrNone: Option<Session>)
    | Reconfigure(sessionOrNone: Option<Session>)
    | Stop(sessionOrNone: Option<Session>)

  datatype Management = Management(
    active: Option<nat>,
    session: Option<Session>,
    inUse: bool,
    response: Response,
    selected: bool,
    prepares: seq<Prepare>,
    callbacks: seq<Callback>,
    openings: nat,             // history: how often the slot was taken, which numbers the openings from one
    log: seq<Entry>)

  /** What an event does to the connections: the CLOSED listener and its extra listener allowance come and go
      together. */
  datatype Wiring = Untouched | Attached(connection: nat) | Detached(connection: nat)

  datatype Command = StartSession(decodes: bool, parses: bool) | ReconfigureSession(decodes: bool) | EndSession
    | OtherCommand

  /** Whether a command for the open session reaches the delegate. */
  predicate Reaches(command: Command) {
    match command
    case StartSession(decodes, parses) => decodes && parses
    case ReconfigureSession(decodes) => decodes
    case EndSession => true
    case OtherCommand => false
  }

  predicate Unreadable(command: Command) {
    (command.StartSession? || command.ReconfigureSession?) && !command.decodes
  }

  datatype Outcome = Succeeds | Fails | Raises

  /** `disabled` is the answer of `streamingIsDisabled`; a request that does not decode throws before it does anything,
      and one that does not parse throws later on. */
  datatype Event =
    | SetupEndpoints(connection: nat, disabled: bool, decodes: bool, session: Session, parses: bool)
    | PrepareAnswers(prepare: nat, outcome: Outcome)
    | PrepareCaught(prepare: nat)
    | SelectConfiguration(disabled: bool, decodes: bool, session: Session, command: Command)
    | StreamAnswers(callback: nat, error: bool)
    | ConnectionClosed
    | ForceStop
    | Destroy
    | FactoryReset

  const NEW_MANAGEMENT := Management(None, None, false, Unset, false, [], [], 0, [])

  // ---------------------------------------------------------------- one management

  function SessionClosed(m: Management): (Management, Wiring) {
    (m.(response := Unset, selected := false, active := None, inUse := false, session := None,
        log := if m.session.Some? then m.log + [Released(m.session.value)] else m.log),
     if m.active.Some? then Detached(m.active.value) else Untouched)
  }

  function Stopped(m: Management): (Management, Wiring) {
    var r := SessionClosed(m);
    (r.0.(log := r.0.log + [Stop(m.session)]), r.1)
  }

  function Logged(m: Management, e: Entry): Management {
    m.(log := m.log + [e], callbacks := m.callbacks + [Callback(m.openings, false)])
  }

  function SetUp(m: Management, connection: nat, session: Session, parses: bool): (Management, Wiring) {
    if m.inUse then (m.(response := Busy(session)), Untouched)
    else
      (m.(active := Some(connection), session := Some(session), inUse := true, openings := m.openings + 1,
          log := m.log + [Opened(session)],
          prepares := if parses then m.prepares + [Prepare(session, m.openings + 1, false, false)] else m.prepares),
       Attached(connection))
  }

  function Answered(m: Management, k: nat, outcome: Outcome): (Management, Wiring)
    requires k < |m.prepares|
  {
    var m' := m.(prepares := m.prepares[k := m.prepares[k].(answered := true)]);
    match outcome
    case Succeeds => (m'.(response := Success(m.prepares[k].session, m.prepares[k].opening)), Untouched)
    case Fails => SessionClosed(m')
    case Raises => (m', Untouched)
  }

  function Selected(m: Management, session: Session, command: Command): (Management, Wiring) {
    if m.session != Some(session) then (m, Untouched)
    else
      var m' := m.(selected := true);
      match command
      case StartSession(decodes, parses) =>
        if !decodes then (m', Untouched)
        else if parses then (Logged(m', Start(m.session)), Untouched)
        else SessionClosed(m')
      case ReconfigureSession(decodes) => (if decodes then Logged(m', Reconfigure(m.session)) else m', Untouched)
      case EndSession =>
        var r := Stopped(m');
        (r.0.(callbacks := r.0.callbacks + [Callback(m.openings, false)]), r.1)
      case OtherCommand => (m', Untouched)
  }

  function Handle(m: Management, e: Event): (Management, Wiring) {
    match e
    case SetupEndpoints(connection, disabled, decodes, session, parses) =>
      if disabled || !decodes then (m, Untouched) else SetUp(m, connection, session, parses)
    case PrepareAnswers(k, outcome) =>
      if k < |m.prepares| && !m.prepares[k].answered then Answered(m, k, outcome) else (m, Untouched)
    case PrepareCaught(k) =>
      if k < |m.prepares| && !m.prepares[k].caught then
        SessionClosed(m.(prepares := m.prepares[k := m.prepares[k].(caught := true)]))
      else (m, Untouched)
    case SelectConfiguration(disabled, decodes, session, command) =>
      if disabled || !decodes then (m, Untouched) else Selected(m, session, command)
    case StreamAnswers(k, error) =>
      if k >= |m.callbacks| || m.callbacks[k].answered then (m, Untouched)
      else
        var m' := m.(callbacks := m.callbacks[k := m.callbacks[k].(answered := true)]);
        if error then SessionClosed(m') else (m', Untouched)
    case ConnectionClosed => Stopped(m)
    case ForceStop => SessionClosed(m)
    case Destroy => if m.active.Some? then Stopped(m) else (m, Untouched)
    case FactoryReset => (m.(response := Unset, selected := false), Untouched)
  }

  // ---------------------------------------------------------------- the slot

  ghost predicate Consistent(m: Management) {
    (m.inUse <==> m.active.Some?) && (m.inUse <==> m.session.Some?)
  }

  /** Whether the sessions opened and released so far leave one open, and which; nothing if they do not alternate, or if
      a session is started, reconfigured or stopped at any other time than it may. */
  function Replay(log: seq<Entry>): Option<Option<Session>> {
    if log == [] then Some(None)
    else
      var before := Replay(log[..|log| - 1]);
      if before.None? then None
      else
        match log[|log| - 1]
        case Opened(s) => if before.value.None? then Some(Some(s)) else None
        case Released(s) => if before.value == Some(s) then Some(None) else None
        case Start(s) => if s.Some? && s == before.value then before else None
        case Reconfigure(s) => if s.Some? && s == before.value then before else None
        case Stop(s) => if |log| >= 2 && s.Some? && log[|log| - 2] == Released(s.value) then before else None
  }

  /** The slot is the session the log leaves open: sessions never overlap, what is started or reconfigured is the open
      session, and a STOP names the session released right before. */
  ghost predicate InOrder(m: Management) {
    Consistent(m) && Replay(m.log) == Some(m.session)
  }

  /** The sessions of all openings, in order. */
  function Sessions(log: seq<Entry>): seq<Session> {
    if log == [] then []
    else Sessions(log[..|log| - 1]) + if log[|log| - 1].Opened? then [log[|log| - 1].session] else []
  }

  /** What is in flight names an opening that took place, and the session it was made with. */
  ghost predicate Numbered(m: Management) {
    && m.openings == |Sessions(m.log)|
    && (forall p <- m.prepares :: 1 <= p.opening <= m.openings && p.session == Sessions(m.log)[p.opening - 1])
    && (forall c <- m.callbacks :: 1 <= c.opening <= m.openings)
    && (m.session.Some? ==> m.openings > 0 && m.session.value == Sessions(m.log)[m.openings - 1])
    && (m.response.Success? ==>
          1 <= m.response.opening <= m.openings && m.response.session == Sessions(m.log)[m.response.opening - 1])
  }

  ghost predicate Invariant(m: Management) {
    InOrder(m) && Numbered(m)
  }

  lemma Extended(log: seq<Entry>, e: Entry)
    ensures (log + [e])[..|log|] == log && (log + [e])[|log|] == e
    ensures Sessions(log + [e]) == if e.Opened? then Sessions(log) + [e.session] else Sessions(log)
  {
    assert (log + [e])[..|log|] == log;
    assert Sessions(log) + [] == Sessions(log);
  }

  lemma ClosedKeeps(m: Management)
    requires Invariant(m)
    ensures Invariant(SessionClosed(m).0)
  {
    if m.session.Some? { Extended(m.log, Released(m.session.value)); }
  }

  lemma StoppedKeeps(m: Management)
    requires Invariant(m) && m.session.Some?
    ensures Invariant(Stopped(m).0)
  {
    ClosedKeeps(m);
    Extended(SessionClosed(m).0.log, Stop(m.session));
  }

  lemma SetUpKeeps(m: Management, connection: nat, session: Session, parses: bool)
    requires Invariant(m)
    ensures Invariant(SetUp(m, connection, session, parses).0)
  {
    Extended(m.log, Opened(session));
  }

  lemma AnsweredKeeps(m: Management, k: nat, outcome: Outcome)
    requires Invariant(m) && k < |m.prepares|
    ensures Invariant(Answered(m, k, outcome).0)
  {
    var prepares := m.prepares[k := m.prepares[k].(answered := true)];
    assert m.prepares[k] in m.prepares;
    SamePrepares(m, prepares);
    ClosedKeeps(m.(prepares := prepares));
  }

  lemma SamePrepares(m: Management, prepares: seq<Prepare>)
    requires Invariant(m)
    requires forall p <- prepares :: exists q <- m.prepares :: q.session == p.session && q.opening == p.opening
    ensures Invariant(m.(prepares := prepares))
  {
  }

  lemma LoggedKeeps(m: Management, e: Entry)
    requires Invariant(m) && m.session.Some? && (e == Start(m.session) || e == Reconfigure(m.session))
    ensures Invariant(Logged(m, e))
  {
    Extended(m.log, e);
  }

  lemma EndKeeps(m: Management)
    requires Invariant(m) && m.session.Some?
    ensures Invariant(Selected(m, m.session.value, EndSession).0)
  {
    StoppedKeeps(m.(selected := true));
  }

  lemma SelectedKeeps(m: Management, session: Session, command: Command)
    requires Invariant(m)
    ensures Invariant(Selected(m, session, command).0)
  {
    if m.session == Some(session) {
      var m' := m.(selected := true);
      assert Invariant(m');
      match command
      case StartSession(decodes, parses) =>
        if decodes && parses { LoggedKeeps(m', Start(m.session)); }
        if decodes && !parses { ClosedKeeps(m'); }
      case ReconfigureSession(_) => LoggedKeeps(m', Reconfigure(m.session));
      case EndSession => EndKeeps(m);
      case OtherCommand =>
    }
  }

  /** A CLOSED event reaches only a management that holds the connection. */
  lemma HandleKeeps(m: Management, e: Event)
    requires Invariant(m) && (e.ConnectionClosed? ==> m.active.Some?)
    ensures Invariant(Handle(m, e).0)
  {
    match e
    case SetupEndpoints(connection, _, _, session, parses) => SetUpKeeps(m, connection, session, parses);
    case PrepareAnswers(k, outcome) => if k < |m.prepares| { AnsweredKeeps(m, k, outcome); }
    case PrepareCaught(k) =>
      if k < |m.prepares| {
        var prepares := m.prepares[k := m.prepares[k].(caught := true)];
        assert m.prepares[k] in m.prepares;
        SamePrepares(m, prepares);
        ClosedKeeps(m.(prepares := prepares));
      }
    case SelectConfiguration(_, _, session, command) => SelectedKeeps(m, session, command);
    case StreamAnswers(k, _) =>
      if k < |m.callbacks| {
        assert m.callbacks[k] in m.callbacks;
        ClosedKeeps(m.(callbacks := m.callbacks[k := m.callbacks[k].(answered := true)]));
      }
    case ConnectionClosed => StoppedKeeps(m);
    case ForceStop => ClosedKeeps(m);
    case Destroy => if m.active.Some? { StoppedKeeps(m); }
    case FactoryReset =>
  }

  /** The wiring follows the connection in the slot. */
  lemma WiringFollows(m: Management, e: Event)
    requires Consistent(m)
    ensures var r := Handle(m, e);
      match r.1
      case Untouched => r.0.active == m.active
      case Attached(c) => m.active == None && r.0.active == Some(c)
      case Detached(c) => m.active == Some(c) && r.0.active == None
  {
  }

  // ---------------------------------------------------------------- several managements, shared connections

  /** `listeners` pairs a connection with the management listening for its CLOSED event; `allowance` is the extra
      listener allowance of a connection. */
  datatype World = World(managements: seq<Management>, listeners: set<(nat, nat)>, allowance: map<nat, int>)

  datatype WorldEvent = On(management: nat, event: Event) | Closes(connection: nat)

  function Allowance(w: World, c: nat): int {
    if c in w.allowance then w.allowance[c] else 0
  }

  function Put(w: World, i: nat, r: (Management, Wiring)): World
    requires i < |w.managements|
  {
    var managements := w.managements[i := r.0];
    match r.1
    case Untouched => w.(managements := managements)
    case Attached(c) => World(managements, w.listeners + {(c, i)}, w.allowance[c := Allowance(w, c) + 1])
    case Detached(c) => World(managements, w.listeners - {(c, i)}, w.allowance[c := Allowance(w, c) - 1])
  }

  /** The CLOSED event of a connection, as far as management `i` listens for it. */
  function DeliveredOne(w: World, c: nat, i: nat): (w': World)
    requires i < |w.managements|
    ensures |w'.managements| == |w.managements|
  {
    if (c, i) in w.listeners then Put(w, i, Handle(w.managements[i], ConnectionClosed)) else w
  }

  /** The CLOSED event, delivered to the managements from `i` on. */
  function Delivered(w: World, c: nat, i: nat): (w': World)
    ensures |w'.managements| == |w.managements|
    decreases |w.managements| - i
  {
    if i >= |w.managements| then w else Delivered(DeliveredOne(w, c, i), c, i + 1)
  }

  function Step(w: World, e: WorldEvent): World {
    match e
    case On(i, event) =>
      if i < |w.managements| && !event.ConnectionClosed? then Put(w, i, Handle(w.managements[i], event)) else w
    case Closes(c) => Delivered(w, c, 0)
  }

  function Run(n: nat, events: seq<WorldEvent>): World {
    if events == [] then World(seq(n, _ => NEW_MANAGEMENT), {}, map[])
    else Step(Run(n, events[..|events| - 1]), events[|events| - 1])
  }

  ghost function HoldersIn(managements: seq<Management>, c: nat): set<nat> {
    set i | 0 <= i < |managements| && managements[i].active == Some(c)
  }

  ghost function Holders(w: World, c: nat): set<nat> {
    HoldersIn(w.managements, c)
  }

  ghost predicate WorldInvariant(w: World) {
    && (forall i :: 0 <= i < |w.managements| ==> Invariant(w.managements[i]))
    && (forall c: nat, i: nat :: (c, i) in w.listeners <==> i < |w.managements| && w.managements[i].active == Some(c))
    && (forall c: nat :: Allowance(w, c) == |Holders(w, c)|)
  }

  lemma HoldersUpdated(managements: seq<Management>, i: nat, m: Management, c: nat)
    requires i < |managements|
    ensures var before, after := HoldersIn(managements, c), HoldersIn(managements[i := m], c);
      |after| == |before| - (if managements[i].active == Some(c) then 1 else 0) + (if m.active == Some(c) then 1 else 0)
  {
    var before, after := HoldersIn(managements, c), HoldersIn(managements[i := m], c);
    assert i in before <==> managements[i].active == Some(c);
    if m.active == Some(c) {
      assert after == before + {i};
    } else {
      assert after == before - {i};
    }
  }

  lemma PutKeeps(w: World, i: nat, e: Event)
    requires WorldInvariant(w) && i < |w.managements|
    requires e.ConnectionClosed? ==> w.managements[i].active.Some?
    ensures WorldInvariant(Put(w, i, Handle(w.managements[i], e)))
  {
    var m, r := w.managements[i], Handle(w.managements[i], e);
    HandleKeeps(m, e);
    WiringFollows(m, e);
    var w' := Put(w, i, r);
    forall c: nat ensures Allowance(w', c) == |Holders(w', c)| {
      HoldersUpdated(w.managements, i, r.0, c);
      assert w'.managements == w.managements[i := r.0] && Allowance(w, c) == |Holders(w, c)|;
    }
  }

  /** What a CLOSED event makes of a management. */
  function ToldClosed(m: Management, c: nat): Management {
    if m.active == Some(c) then Handle(m, ConnectionClosed).0 else m
  }

  lemma DeliveredAt(w: World, c: nat, i: nat)
    requires WorldInvariant(w) && i < |w.managements|
    ensures WorldInvariant(DeliveredOne(w, c, i))
    ensures DeliveredOne(w, c, i).managements[i].active != Some(c)
    ensures DeliveredOne(w, c, i).managements[i] == ToldClosed(w.managements[i], c)
    ensures forall j :: 0 <= j < |w.managements| && j != i ==>
      DeliveredOne(w, c, i).managements[j] == w.managements[j]
  {
    assert (c, i) in w.listeners <==> w.managements[i].active == Some(c);
    if w.managements[i].active == Some(c) { PutKeeps(w, i, ConnectionClosed); }
  }

  lemma {:induction false} DeliveredKeeps(w: World, c: nat, i: nat)
    requires WorldInvariant(w)
    ensures WorldInvariant(Delivered(w, c, i))
    decreases |w.managements| - i
  {
    if i < |w.managements| {
      DeliveredAt(w, c, i);
      DeliveredKeeps(DeliveredOne(w, c, i), c, i + 1);
    }
  }

  lemma OthersUndelivered(w: World, c: nat, i: nat, j: nat)
    requires i < |w.managements| && j < |w.managements| && j != i
    ensures DeliveredOne(w, c, i).managements[j] == w.managements[j]
    ensures (c, j) in DeliveredOne(w, c, i).listeners <==> (c, j) in w.listeners
  {
  }

  lemma {:induction false} DeliveredTo(w: World, c: nat, from: nat, i: nat)
    requires from <= |w.managements| && i < |w.managements|
    ensures Delivered(w, c, from).managements[i] ==
      if from <= i then DeliveredOne(w, c, i).managements[i] else w.managements[i]
    decreases |w.managements| - from
  {
    if from < |w.managements| {
      var w' := DeliveredOne(w, c, from);
      DeliveredTo(w', c, from + 1, i);
      if i != from { OthersUndelivered(w, c, from, i); }
    }
  }

  lemma NobodyHolds(w: World, c: nat)
    requires WorldInvariant(w)
    ensures Holders(Delivered(w, c, 0), c) == {}
  {
    forall i | 0 <= i < |w.managements| ensures Delivered(w, c, 0).managements[i].active != Some(c) {
      DeliveredTo(w, c, 0, i);
      DeliveredAt(w, c, i);
    }
  }

  lemma StepKeeps(w: World, e: WorldEvent)
    requires WorldInvariant(w)
    ensures WorldInvariant(Step(w, e))
  {
    match e
    case On(i, event) => if i < |w.managements| && !event.ConnectionClosed? { PutKeeps(w, i, event); }
    case Closes(c) => DeliveredKeeps(w, c, 0);
  }

  lemma {:induction false} RunKeeps(n: nat, events: seq<WorldEvent>)
    ensures WorldInvariant(Run(n, events)) && |Run(n, events).managements| == n
  {
    if events == [] {
      forall c: nat ensures Allowance(Run(n, events), c) == |Holders(Run(n, events), c)| {
        assert Holders(Run(n, events), c) == {};
      }
    } else {
      RunKeeps(n, events[..|events| - 1]);
      StepKeeps(Run(n, events[..|events| - 1]), events[|events| - 1]);
    }
  }

  /** The assertion of the source holds on every run: a management that is available holds no connection. */
  lemma AvailableHoldsNoConnection(n: nat, events: seq<WorldEvent>, i: nat)
    requires i < |Run(n, events).managements|
    ensures var m := Run(n, events).managements[i];
      (m.inUse <==> m.active.Some?) && (m.inUse <==> m.session.Some?)
  {
    RunKeeps(n, events);
  }

  /** The extra listener allowance of a connection is the number of managements holding it, and nothing is left of it
      when it closes. */
  lemma AllowanceCountsHolders(n: nat, events: seq<WorldEvent>, c: nat)
    ensures Allowance(Run(n, events), c) == |Holders(Run(n, events), c)|
    ensures Allowance(Run(n, events + [Closes(c)]), c) == 0
    ensures forall i: nat :: (c, i) !in Run(n, events + [Closes(c)]).listeners
  {
    RunKeeps(n, events);
    RunKeeps(n, events + [Closes(c)]);
    assert (events + [Closes(c)])[..|events|] == events;
    NobodyHolds(Run(n, events), c);
    var w := Run(n, events + [Closes(c)]);
    assert forall i: nat :: (c, i) in w.listeners <==> i in Holders(w, c);
  }

  /** On every run, what a management tells its delegate replays to the session in its slot: sessions never overlap,
      START and RECONFIGURE name the open session, and each STOP names the session released right before it. */
  lemma DelegateSeesTheSlot(n: nat, events: seq<WorldEvent>, i: nat)
    requires i < |Run(n, events).managements|
    ensures Replay(Run(n, events).managements[i].log) == Some(Run(n, events).managements[i].session)
  {
    RunKeeps(n, events);
  }

  lemma {:induction false} PrefixesReplay(log: seq<Entry>, k: nat)
    requires k <= |log| && Replay(log).Some?
    ensures Replay(log[..k]).Some?
    decreases |log|
  {
    if k < |log| {
      PrefixesReplay(log[..|log| - 1], k);
      assert log[..|log| - 1][..k] == log[..k];
    } else {
      assert log[..k] == log;
    }
  }

  /** So no STOP is sent without a session, and no session is stopped twice. */
  lemma StopsNameTheActiveSession(n: nat, events: seq<WorldEvent>, i: nat, k: nat)
    requires i < |Run(n, events).managements|
    requires k < |Run(n, events).managements[i].log| && Run(n, events).managements[i].log[k].Stop?
    ensures var log := Run(n, events).managements[i].log;
      && k > 0 && log[k].sessionOrNone.Some? && log[k - 1] == Released(log[k].sessionOrNone.value)
      && Replay(log[..k - 1]) == Some(log[k].sessionOrNone)
  {
    DelegateSeesTheSlot(n, events, i);
    var log := Run(n, events).managements[i].log;
    PrefixesReplay(log, k + 1);
    assert log[..k + 1][..k] == log[..k];
    PrefixesReplay(log, k);
    assert log[..k][..k - 1] == log[..k - 1];
  }

  /** What frees a slot in use; a factory reset does not. */
  lemma FreedIff(m: Management, e: Event)
    requires Invariant(m) && m.inUse
    ensures !Handle(m, e).0.inUse <==>
      || e.ConnectionClosed? || e.ForceStop? || e.Destroy?
      || (e.PrepareAnswers? && e.prepare < |m.prepares| && !m.prepares[e.prepare].answered && e.outcome.Fails?)
      || (e.PrepareCaught? && e.prepare < |m.prepares| && !m.prepares[e.prepare].caught)
      || (e.StreamAnswers? && e.error && e.callback < |m.callbacks| && !m.callbacks[e.callback].answered)
      || (e.SelectConfiguration? && !e.disabled && e.decodes && Some(e.session) == m.session
          && (e.command.EndSession? || (e.command.StartSession? && e.command.decodes && !e.command.parses)))
  {
  }

  /** Of these only an END request, a closing connection and a destruction tell the delegate to stop. */
  lemma ToldToStopIff(m: Management, e: Event)
    requires Invariant(m) && m.inUse && !Handle(m, e).0.inUse
    ensures Handle(m, e).0.log[|m.log|..] ==
      if e.ConnectionClosed? || e.Destroy? || (e.SelectConfiguration? && e.command.EndSession?) then
        [Released(m.session.value), Stop(m.session)]
      else [Released(m.session.value)]
  {
  }

  // ---------------------------------------------------------------- what the delegate is told

  /** The entries of a slot that is emptied, with or without a STOP. */
  function Emptied(session: Option<Session>, stop: bool): seq<Entry> {
    if session.None? then [] else [Released(session.value)] + if stop then [Stop(session)] else []
  }

  /** What an event makes a management do to its slot and tell its delegate. */
  function Told(m: Management, e: Event): seq<Entry> {
    match e
    case SetupEndpoints(_, false, true, session, _) => if m.inUse then [] else [Opened(session)]
    case SelectConfiguration(false, true, session, command) =>
      if m.session == Some(session) then ToldByCommand(session, command) else []
    case PrepareAnswers(k, Fails) => Emptied(if Pending(m, e) then m.session else None, false)
    case PrepareCaught(k) => Emptied(if Pending(m, e) then m.session else None, false)
    case StreamAnswers(k, true) => Emptied(if Pending(m, e) then m.session else None, false)
    case ForceStop => Emptied(m.session, false)
    case ConnectionClosed => Emptied(m.session, true)
    case Destroy => Emptied(m.session, true)
    case _ => []
  }

  function ToldByCommand(session: Session, command: Command): seq<Entry> {
    match command
    case StartSession(true, true) => [Start(Some(session))]
    case StartSession(true, false) => [Released(session)]
    case ReconfigureSession(true) => [Reconfigure(Some(session))]
    case EndSession => [Released(session), Stop(Some(session))]
    case _ => []
  }

  lemma HandleTells(m: Management, e: Event)
    requires Invariant(m) && (e.ConnectionClosed? ==> m.active.Some?)
    ensures Handle(m, e).0.log == m.log + Told(m, e)
  {
    assert m.log + [] == m.log;
    match e
    case SelectConfiguration(false, true, session, command) =>
      if m.session == Some(session) { CommandTells(m, session, command); }
    case Destroy => if m.active.Some? { StoppedTells(m); }
    case ConnectionClosed => StoppedTells(m);
    case _ =>
  }

  lemma StoppedTells(m: Management)
    requires Invariant(m) && m.active.Some?
    ensures Stopped(m).0.log == m.log + Emptied(m.session, true)
  {
  }

  lemma CommandTells(m: Management, session: Session, command: Command)
    requires Invariant(m) && m.session == Some(session)
    ensures Selected(m, session, command).0.log == m.log + ToldByCommand(session, command)
  {
    assert m.log + [] == m.log;
    if command.EndSession? { StoppedTells(m.(selected := true)); }
  }

  /** The part of an event of the world that concerns management `i`. */
  function Concerning(m: Management, i: nat, e: WorldEvent): Option<Event> {
    match e
    case On(j, event) => if j == i && !event.ConnectionClosed? then Some(event) else None
    case Closes(c) => if m.active == Some(c) then Some(ConnectionClosed) else None
  }

  lemma StepConcerns(w: World, e: WorldEvent, i: nat)
    requires WorldInvariant(w) && i < |w.managements|
    ensures i < |Step(w, e).managements|
    ensures Step(w, e).managements[i] ==
      match Concerning(w.managements[i], i, e)
      case Some(event) => Handle(w.managements[i], event).0
      case None => w.managements[i]
  {
    if e.Closes? {
      DeliveredTo(w, e.connection, 0, i);
      DeliveredAt(w, e.connection, i);
    }
  }

  /** On every run, each event makes a management tell its delegate exactly what the event calls for: a CLOSED event
      concerns the managements that hold the connection, everything else the one it is addressed to. */
  lemma ToldOnEveryRun(n: nat, events: seq<WorldEvent>, e: WorldEvent, i: nat)
    requires i < n
    ensures var (m, m') := (ManagementAfter(n, events, i), ManagementAfter(n, events + [e], i));
      m'.log == m.log +
        match Concerning(m, i, e)
        case Some(event) => Told(m, event)
        case None => []
  {
    RunKeeps(n, events);
    RunKeeps(n, events + [e]);
    assert (events + [e])[..|events|] == events;
    StepConcerns(Run(n, events), e, i);
    var m := ManagementAfter(n, events, i);
    if Concerning(m, i, e).Some? { HandleTells(m, Concerning(m, i, e).value); }
  }

  /** A command for the session in the slot. */
  predicate Selects(m: Management, e: Event) {
    e.SelectConfiguration? && !e.disabled && e.decodes && m.session == Some(e.session)
  }

  lemma StartsAndReconfiguresTold(m: Management, e: Event, session: Option<Session>)
    ensures Start(session) in Told(m, e) <==>
      Selects(m, e) && session == m.session && e.command == StartSession(true, true)
    ensures Reconfigure(session) in Told(m, e) <==>
      Selects(m, e) && session == m.session && e.command == ReconfigureSession(true)
  {
  }

  /** So START and RECONFIGURE each go out for the request of that name for the session in the slot, if it can be read,
      and for nothing else. */
  lemma StartsAndReconfiguresIff(n: nat, events: seq<WorldEvent>, i: nat, e: Event, session: Option<Session>)
    requires i < n
    ensures var (m, m') := (ManagementAfter(n, events, i), ManagementAfter(n, events + [On(i, e)], i));
      && m.log <= m'.log
      && (Start(session) in m'.log[|m.log|..] <==>
            Selects(m, e) && session == m.session && e.command == StartSession(true, true))
      && (Reconfigure(session) in m'.log[|m.log|..] <==>
            Selects(m, e) && session == m.session && e.command == ReconfigureSession(true))
  {
    var (m, m') := (ManagementAfter(n, events, i), ManagementAfter(n, events + [On(i, e)], i));
    ToldOnEveryRun(n, events, On(i, e), i);
    StartsAndReconfiguresTold(m, e, session);
    assert m'.log[|m.log|..] == if e.ConnectionClosed? then [] else Told(m, e);
  }

  /** The response a controller reads next, and whether a configuration is selected. */
  lemma ResponseIs(m: Management, e: Event)
    requires Invariant(m) && (e.ConnectionClosed? ==> m.active.Some?)
    ensures var m' := Handle(m, e).0;
      var emptied := m.inUse && !m'.inUse;
      && (emptied || e.FactoryReset? ==> m'.response == Unset && !m'.selected)
      && (!emptied && e.PrepareAnswers? && Pending(m, e) && e.outcome.Succeeds? ==>
            m'.response == Success(m.prepares[e.prepare].session, m.prepares[e.prepare].opening))
      && (e.SetupEndpoints? && !e.disabled && e.decodes && m.inUse ==> m'.response == Busy(e.session))
      && (!emptied && e.SelectConfiguration? && !e.disabled && e.decodes && m.session == Some(e.session) ==>
            m'.selected)
  {
  }

  /** A callback comes once: it is not pending any more afterwards, and every other one is as before. */
  lemma CallbacksComeOnce(m: Management, e: Event, other: Event)
    requires Invariant(m) && Pending(m, e)
    ensures var m' := Handle(m, e).0;
      Pending(m', other) <==> Pending(m, other) && !SameCallback(e, other)
  {
  }

  predicate SameCallback(e: Event, other: Event) {
    || (e.PrepareAnswers? && other.PrepareAnswers? && e.prepare == other.prepare)
    || (e.PrepareCaught? && other.PrepareCaught? && e.prepare == other.prepare)
    || (e.StreamAnswers? && other.StreamAnswers? && e.callback == other.callback)
  }

  /** A preparation is asked for exactly when the slot is taken by a request that parses, for the opening it makes; a
      stream request exactly when START, RECONFIGURE or STOP answers a command. */
  lemma RequestsInFlight(m: Management, e: Event)
    requires Invariant(m) && (e.ConnectionClosed? ==> m.active.Some?)
    ensures var m' := Handle(m, e).0;
      && (|m'.prepares| > |m.prepares| <==> m'.openings > m.openings && e.SetupEndpoints? && e.parses)
      && (|m'.prepares| > |m.prepares| ==>
            m'.prepares == m.prepares + [Prepare(e.session, m.openings + 1, false, false)])
      && (m'.openings > m.openings ==> m'.active == Some(e.connection) && m'.session == Some(e.session))
      && (|m'.callbacks| > |m.callbacks| <==>
            e.SelectConfiguration? && Told(m, e) != [] && !(e.command.StartSession? && !e.command.parses))
      && (|m'.callbacks| > |m.callbacks| ==> m'.callbacks == m.callbacks + [Callback(m.openings, false)])
  {
  }

  // ---------------------------------------------------------------- callbacks and the opening they belong to

  /** The number of the opening a log leaves open. */
  function OpeningNow(log: seq<Entry>): Option<nat> {
    match Replay(log)
    case Some(Some(_)) => Some(|Sessions(log)|)
    case _ => None
  }

  /** A callback of a preparation or a stream request that has not come before. */
  predicate Pending(m: Management, e: Event) {
    match e
    case PrepareAnswers(k, _) => k < |m.prepares| && !m.prepares[k].answered
    case PrepareCaught(k) => k < |m.prepares| && !m.prepares[k].caught
    case StreamAnswers(k, _) => k < |m.callbacks| && !m.callbacks[k].answered
    case _ => false
  }

  /** The opening a callback belongs to. */
  function Own(m: Management, e: Event): nat
    requires Pending(m, e)
  {
    match e
    case PrepareAnswers(k, _) => m.prepares[k].opening
    case PrepareCaught(k) => m.prepares[k].opening
    case StreamAnswers(k, _) => m.callbacks[k].opening
  }

  /** The three kinds of callbacks that empty the slot. */
  predicate Empties(e: Event) {
    (e.PrepareAnswers? && e.outcome.Fails?) || e.PrepareCaught? || (e.StreamAnswers? && e.error)
  }

  /** The slot has been taken again since the opening a callback belongs to. */
  predicate Overtaken(m: Management, opening: nat) {
    m.inUse && m.openings != opening
  }

  lemma OpeningIsCounted(m: Management)
    requires Invariant(m)
    ensures OpeningNow(m.log) == if m.inUse then Some(m.openings) else None
  {
  }

  /** One management and one callback, whatever its kind. */
  lemma CallbackTouches(m: Management, e: Event)
    requires Invariant(m) && Pending(m, e)
    ensures 1 <= Own(m, e) <= |Sessions(m.log)|
    ensures var m' := Handle(m, e).0;
      && Invariant(m')
      && (Overtaken(m, Own(m, e)) <==> OpeningNow(m.log).Some? && Own(m, e) < OpeningNow(m.log).value)
      && (Empties(e) ==> OpeningNow(m'.log) == None)
      && (Empties(e) ==> m'.log == m.log + if m.session.Some? then [Released(m.session.value)] else [])
      && (!Empties(e) ==> m'.log == m.log)
  {
    HandleKeeps(m, e);
    OpeningIsCounted(m);
    OpeningIsCounted(Handle(m, e).0);
    match e
    case PrepareAnswers(k, _) => assert m.prepares[k] in m.prepares;
    case PrepareCaught(k) => assert m.prepares[k] in m.prepares;
    case StreamAnswers(k, _) => assert m.callbacks[k] in m.callbacks;
    assert m.log + [] == m.log;
  }

  ghost function ManagementAfter(n: nat, events: seq<WorldEvent>, i: nat): Management {
    if i < |Run(n, events).managements| then Run(n, events).managements[i] else NEW_MANAGEMENT
  }

  lemma CallbackOnRun(n: nat, events: seq<WorldEvent>, i: nat, e: Event)
    requires i < n && Pending(ManagementAfter(n, events, i), e)
    ensures var m := ManagementAfter(n, events, i);
      Invariant(m) && ManagementAfter(n, events + [On(i, e)], i) == Handle(m, e).0
  {
    RunKeeps(n, events);
    assert (events + [On(i, e)])[..|events|] == events;
  }

  /** On every run, a preparation that fails or throws, or a stream request that is answered with an error, empties a
      slot that another opening holds if and only if the slot has been taken again since its own opening. */
  lemma EmptiesAnotherOpeningIff(n: nat, events: seq<WorldEvent>, i: nat, e: Event)
    requires i < n && Pending(ManagementAfter(n, events, i), e) && Empties(e)
    ensures var (m, m') := (ManagementAfter(n, events, i), ManagementAfter(n, events + [On(i, e)], i));
      (OpeningNow(m'.log) != OpeningNow(m.log) && OpeningNow(m.log) != Some(Own(m, e))) <==> Overtaken(m, Own(m, e))
  {
    CallbackOnRun(n, events, i, e);
    CallbackTouches(ManagementAfter(n, events, i), e);
    OpeningIsCounted(ManagementAfter(n, events, i));
  }

  /** On every run, a preparation that succeeds answers with the endpoints and the session of its own opening; while
      another opening holds the slot if and only if the slot has been taken again, and for an empty slot if and only if
      nothing holds it. */
  lemma AnswersForAnotherOpeningIff(n: nat, events: seq<WorldEvent>, i: nat, k: nat)
    requires i < n && Pending(ManagementAfter(n, events, i), PrepareAnswers(k, Succeeds))
    ensures var e := PrepareAnswers(k, Succeeds);
      var (m, m') := (ManagementAfter(n, events, i), ManagementAfter(n, events + [On(i, e)], i));
      && 1 <= Own(m, e) <= |Sessions(m'.log)|
      && m'.response == Success(Sessions(m'.log)[Own(m, e) - 1], Own(m, e))
      && ((OpeningNow(m'.log).Some? && OpeningNow(m'.log) != Some(m'.response.opening)) <==> Overtaken(m, Own(m, e)))
      && (OpeningNow(m'.log).None? <==> !m.inUse)
  {
    var m := ManagementAfter(n, events, i);
    CallbackOnRun(n, events, i, PrepareAnswers(k, Succeeds));
    CallbackTouches(m, PrepareAnswers(k, Succeeds));
    OpeningIsCounted(m);
    assert m.prepares[k] in m.prepares;
  }

  function SetsUp(c: nat, session: Session): WorldEvent {
    On(0, SetupEndpoints(c, false, true, session, true))
  }

  lemma RunOne(events: seq<WorldEvent>, e: WorldEvent)
    ensures Run(1, events + [e]) == Step(Run(1, events), e)
  {
    assert (events + [e])[..|events|] == events;
  }

  /** Late callbacks of a preparation meet a newer opening, even one with the same session identifier: a failure and a
      throw empty its slot without a STOP, and a success answers with the endpoints of the older one. */
  lemma LateCallbacksMeetNewerSessions(c: nat, older: Session, newer: Session)
    ensures var events := [SetsUp(c, older)] + [On(0, ForceStop)] + [SetsUp(c, newer)];
      var m := ManagementAfter(1, events, 0);
      && m.session == Some(newer) && OpeningNow(m.log) == Some(2)
      && |m.prepares| == 2 && m.prepares[0] == Prepare(older, 1, false, false)
      && Handle(m, PrepareAnswers(0, Fails)).0.log == m.log + [Released(newer)]
      && Handle(m, PrepareCaught(0)).0.log == m.log + [Released(newer)]
      && Handle(m, PrepareAnswers(0, Succeeds)).0.response == Success(older, 1)
  {
    var (e1, e2, e3) := (SetsUp(c, older), On(0, ForceStop), SetsUp(c, newer));
    assert [] + [e1] == [e1];
    RunOne([], e1);
    RunOne([e1], e2);
    RunOne([e1] + [e2], e3);
    RunKeeps(1, [e1] + [e2] + [e3]);
    OpeningIsCounted(ManagementAfter(1, [e1] + [e2] + [e3], 0));
  }

  /** So does the callback of an END request. */
  lemma LateStreamCallbackMeetsNewerSession(c: nat, older: Session, newer: Session)
    ensures var events :=
      [SetsUp(c, older)] + [On(0, SelectConfiguration(false, true, older, EndSession))] + [SetsUp(c, newer)];
      var m := ManagementAfter(1, events, 0);
      && m.session == Some(newer) && OpeningNow(m.log) == Some(2) && m.callbacks == [Callback(1, false)]
      && Handle(m, StreamAnswers(0, true)).0.log == m.log + [Released(newer)]
  {
    var (e1, e2, e3) :=
      (SetsUp(c, older), On(0, SelectConfiguration(false, true, older, EndSession)), SetsUp(c, newer));
    assert [] + [e1] == [e1];
    RunOne([], e1);
    RunOne([e1], e2);
    RunOne([e1] + [e2], e3);
    RunKeeps(1, [e1] + [e2] + [e3]);
    OpeningIsCounted(ManagementAfter(1, [e1] + [e2] + [e3], 0));
  }

  // ---------------------------------------------------------------- the objects

  class HAPConnection {
    const id: nat
    var maxListeners: int
    var closedListeners: set<RTPStreamManagement>

    constructor (id: nat, maxListeners: int)
      ensures this.id == id && this.maxListeners == maxListeners && closedListeners == {}
    {
      this.id, this.maxListeners, closedListeners := id, maxListeners, {};
    }
  }

  datatype Status = Done | Later | INVALID_VALUE_IN_REQUEST | NOT_ALLOWED_IN_CURRENT_STATE | Thrown

  class RTPStreamManagement {
    var activeConnection: HAPConnection?
    var sessionIdentifier: Option<Session>
    var streamInUse: bool
    var setupEndpointsResponse: Response
    var selectedConfiguration: bool
    var prepares: seq<Prepare>           // what the closures of the preparations in flight hold
    var callbacks: seq<Callback>         // and those of the stream requests
    var openings: nat                    // counted for the proofs; the source keeps no such number
    ghost var log: seq<Entry>

    ghost function View(): Management
      reads this
    {
      Management(if activeConnection == null then None else Some(activeConnection.id), sessionIdentifier, streamInUse,
                 setupEndpointsResponse, selectedConfiguration, prepares, callbacks, openings, log)
    }

    constructor ()
      ensures View() == NEW_MANAGEMENT
    {
      activeConnection, sessionIdentifier, streamInUse := null, None, false;
      setupEndpointsResponse, selectedConfiguration := Unset, false;
      prepares, callbacks, openings, log := [], [], 0, [];
    }

    method HandleSessionClosed()
      modifies this, activeConnection
      ensures View() == SessionClosed(old(View())).0
      ensures activeConnection == null
      ensures old(activeConnection) != null ==>
        && old(activeConnection).maxListeners == old(activeConnection.maxListeners) - 1
        && old(activeConnection).closedListeners == old(activeConnection.closedListeners) - {this}
    {
      selectedConfiguration := false;
      setupEndpointsResponse := Unset;
      if activeConnection != null {
        activeConnection.closedListeners := activeConnection.closedListeners - {this};
        activeConnection.maxListeners := activeConnection.maxListeners - 1;
        activeConnection := null;
      }
      streamInUse := false;
      if sessionIdentifier.Some? {
        log := log + [Released(sessionIdentifier.value)];
      }
      sessionIdentifier := None;
    }

    method HandleStopStream()
      modifies this, activeConnection
      ensures View() == Stopped(old(View())).0
      ensures activeConnection == null
      ensures old(activeConnection) != null ==>
        && old(activeConnection).maxListeners == old(activeConnection.maxListeners) - 1
        && old(activeConnection).closedListeners == old(activeConnection.closedListeners) - {this}
    {
      var sessionID := sessionIdentifier;
      HandleSessionClosed();
      log := log + [Stop(sessionID)];
    }

    method Destroy()
      modifies this, activeConnection
      ensures View() == Handle(old(View()), Event.Destroy).0
      ensures activeConnection == null
    {
      if activeConnection != null {
        HandleStopStream();
      }
    }

    method HandleFactoryReset()
      modifies this
      ensures View() == Handle(old(View()), FactoryReset).0
      ensures activeConnection == old(activeConnection)
    {
      selectedConfiguration := false;
      setupEndpointsResponse := Unset;
    }

    method HandleSetupEndpoints(connection: HAPConnection, disabled: bool, decodes: bool, session: Session,
                                parses: bool)
      returns (status: Status)
      requires Consistent(View())
      modifies this, connection
      ensures View() == Handle(old(View()), SetupEndpoints(connection.id, disabled, decodes, session, parses)).0
      ensures var attached := !disabled && decodes && !old(streamInUse);
        && activeConnection == (if attached then connection else old(activeConnection))
        && connection.maxListeners == old(connection.maxListeners) + (if attached then 1 else 0)
        && connection.closedListeners == old(connection.closedListeners) + (if attached then {this} else {})
        && (status.Later? <==> attached && parses)
      ensures status.NOT_ALLOWED_IN_CURRENT_STATE? <==> disabled
      ensures status.Thrown? <==> !disabled && (!decodes || (!old(streamInUse) && !parses))
      ensures status.Done? <==> !disabled && decodes && old(streamInUse)
    {
      if disabled {
        return NOT_ALLOWED_IN_CURRENT_STATE;
      }
      if !decodes {
        return Thrown;
      }
      if streamInUse {
        setupEndpointsResponse := Busy(session);
        return Done;
      }
      assert activeConnection == null;
      activeConnection := connection;
      connection.maxListeners := connection.maxListeners + 1;
      connection.closedListeners := connection.closedListeners + {this};
      sessionIdentifier := Some(session);
      streamInUse := true;
      openings := openings + 1;
      log := log + [Opened(session)];
      if !parses {
        return Thrown;
      }
      prepares := prepares + [Prepare(session, openings, false, false)];
      status := Later;
    }

    method OnPrepareAnswered(k: nat, outcome: Outcome)
      requires k < |prepares| && !prepares[k].answered
      modifies this, activeConnection
      ensures View() == Handle(old(View()), PrepareAnswers(k, outcome)).0
    {
      prepares := prepares[k := prepares[k].(answered := true)];
      match outcome {
        case Succeeds => setupEndpointsResponse := Success(prepares[k].session, prepares[k].opening);
        case Fails =>
          setupEndpointsResponse := Failed(prepares[k].session);
          HandleSessionClosed();
        case Raises =>
      }
    }

    method OnPrepareCaught(k: nat)
      requires k < |prepares| && !prepares[k].caught
      modifies this, activeConnection
      ensures View() == Handle(old(View()), PrepareCaught(k)).0
    {
      prepares := prepares[k := prepares[k].(caught := true)];
      setupEndpointsResponse := Failed(prepares[k].session);
      HandleSessionClosed();
    }

    method OnStreamAnswered(k: nat, error: bool)
      requires k < |callbacks| && !callbacks[k].answered
      modifies this, activeConnection
      ensures View() == Handle(old(View()), StreamAnswers(k, error)).0
    {
      callbacks := callbacks[k := callbacks[k].(answered := true)];
      if error {
        HandleSessionClosed();
      }
    }

    method HandleSelectedStreamConfigurationWrite(disabled: bool, decodes: bool, session: Session, command: Command)
      returns (status: Status)
      modifies this, activeConnection
      ensures View() == Handle(old(View()), SelectConfiguration(disabled, decodes, session, command)).0
      ensures status.Later? <==> (!disabled && decodes && old(sessionIdentifier) == Some(session) && Reaches(command))
      ensures status.NOT_ALLOWED_IN_CURRENT_STATE? <==> disabled
      ensures status.Thrown? <==>
        !disabled && (!decodes || (old(sessionIdentifier) == Some(session) && Unreadable(command)))
      ensures !status.Done?
    {
      if disabled {
        return NOT_ALLOWED_IN_CURRENT_STATE;
      }
      if !decodes {
        return Thrown;
      }
      if Some(session) != sessionIdentifier {
        return INVALID_VALUE_IN_REQUEST;
      }
      selectedConfiguration := true;
      match command {
        case StartSession(startDecodes, parses) =>
          if !startDecodes {
            return Thrown;
          }
          if !parses {
            HandleSessionClosed();
            return INVALID_VALUE_IN_REQUEST;
          }
          log := log + [Start(sessionIdentifier)];
          callbacks := callbacks + [Callback(openings, false)];
          return Later;
        case ReconfigureSession(reconfigureDecodes) =>
          if !reconfigureDecodes {
            return Thrown;
          }
          log := log + [Reconfigure(sessionIdentifier)];
          callbacks := callbacks + [Callback(openings, false)];
          return Later;
        case EndSession =>
          HandleStopStream();
          callbacks := callbacks + [Callback(openings, false)];
          return Later;
        case OtherCommand =>
          return INVALID_VALUE_IN_REQUEST;
      }
    }
  }
}
