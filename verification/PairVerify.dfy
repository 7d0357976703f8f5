/** Pair Verify (HomeKit Accessory Protocol Specification, section 5.7), and how unpairing a client ends its
    connections. */
module PairVerify {
  import opened Pairings
  import opened Wrappers

  /** The states of a connection; `Open` stands for the two before it is authenticated. */
  datatype Link = Open | Authenticated | TearingDown | Closing | Closed

  /** What a signature covers: the ephemeral keys of one session, and the name of the client. */
  datatype Signature = Signature(key: Key, session: nat, username: Username)

  /** A signature of the wrong size makes the verification throw; it is absent here. */
  datatype Packet = TooShort | Undecryptable | Undecodable | Incomplete
    | Complete(username: Username, signature: Option<Signature>)

  /** `session` numbers the ephemeral keys; `verifying` says that `_pairVerifyState` is M2. */
  datatype Connection = Connection(link: Link, username: Option<Username>, verifying: bool, session: Option<nat>)

  datatype Server = Server(connections: map<nat, Connection>, named: set<(Username, nat)>, nextSession: nat,
                           registry: Registry)

  datatype Event =
    | First(connection: nat, usable: bool)       // M1, with a public key that can or cannot be used
    | Third(connection: nat, packet: Packet)     // M3
    | Paired(username: Username, key: Key)       // by Pair Setup
    | AddPairing(connection: nat, username: Username, key: Key, permission: Permission)
    | RemovePairing(connection: nat, username: Username)
    | SocketClosed(connection: nat)

  const NEW_CONNECTION := Connection(Open, None, false, None)

  function Get(s: Server, id: nat): Connection {
    if id in s.connections then s.connections[id] else NEW_CONNECTION
  }

  predicate Accepts(r: Registry, c: Connection, packet: Packet) {
    && c.verifying && packet.Complete?
    && packet.username in r.clients
    && c.session.Some?
    && packet.signature == Some(Signature(r.clients[packet.username].publicKey, c.session.value, packet.username))
  }

  predicate Throws(r: Registry, packet: Packet) {
    packet.Complete? && packet.username in r.clients && packet.signature.None?
  }

  function Verified(r: Registry, c: Connection, packet: Packet): Connection {
    if !c.verifying || Throws(r, packet) then c
    else if Accepts(r, c, packet) then c.(verifying := false, link := Authenticated, username := Some(packet.username))
    else c.(verifying := false)
  }

  /** A connection told to close as of an unpairing. */
  function Unpaired(c: Connection, initiator: bool): Connection {
    if initiator then c.(link := TearingDown)
    else if c.link.Closing? || c.link.Closed? then c
    else c.(link := Closing)
  }

  predicate Allowed(allowInsecure: bool, c: Connection) {
    allowInsecure || c.link.Authenticated?
  }

  ghost function RemovedBy(s: Server, id: nat, username: Username): Server {
    var r := RemoveRequested(s.registry, Get(s, id).username, username);
    if !HasAdminPermissions(s.registry, Get(s, id).username) then s
    else
      var gone := {username} + (s.registry.clients.Keys - r.clients.Keys);
      s.(registry := r,
         connections := map i | i in s.connections ::
           if exists u :: u in gone && (u, i) in s.named then Unpaired(s.connections[i], i == id) else s.connections[i])
  }

  ghost function Step(allowInsecure: bool, s: Server, e: Event): Server {
    match e
    case First(id, usable) =>
      if !usable then s
      else s.(connections := s.connections[id := Get(s, id).(verifying := true, session := Some(s.nextSession))],
              nextSession := s.nextSession + 1)
    case Third(id, packet) =>
      s.(connections := s.connections[id := Verified(s.registry, Get(s, id), packet)],
         named := if Accepts(s.registry, Get(s, id), packet) then s.named + {(packet.username, id)} else s.named)
    case Paired(username, key) => s.(registry := Added(s.registry, username, key, ADMIN))
    case AddPairing(id, username, key, permission) =>
      if !Allowed(allowInsecure, Get(s, id)) then s
      else s.(registry := AddRequested(s.registry, Get(s, id).username, username, key, permission))
    case RemovePairing(id, username) => if Allowed(allowInsecure, Get(s, id)) then RemovedBy(s, id, username) else s
    case SocketClosed(id) =>
      var c := Get(s, id);
      s.(connections := s.connections[id := c.(link := Closed)],
         named := if c.username.Some? then s.named - {(c.username.value, id)} else s.named)
  }

  function Restored(registry: Registry): Server {
    Server(map[], {}, 0, registry)
  }

  ghost function Run(allowInsecure: bool, restored: Registry, events: seq<Event>): Server {
    if events == [] then Restored(restored)
    else Step(allowInsecure, Run(allowInsecure, restored, events[..|events| - 1]), events[|events| - 1])
  }

  // ---------------------------------------------------------------- whoever is authenticated is paired

  ghost predicate Known(s: Server, id: nat) {
    var c := Get(s, id);
    && (c.link.Authenticated?
        ==> c.username.Some? && c.username.value in s.registry.clients && (c.username.value, id) in s.named)
    && (c.verifying ==> c.session.Some?)
    && (c.session.Some? ==> c.session.value < s.nextSession)
  }

  lemma StepKeeps(allowInsecure: bool, s: Server, e: Event, id: nat)
    requires Known(s, id)
    ensures Known(Step(allowInsecure, s, e), id)
  {
    if e.RemovePairing? && Allowed(allowInsecure, Get(s, e.connection))
      && HasAdminPermissions(s.registry, Get(s, e.connection).username)
    {
      var c, s' := Get(s, id), Step(allowInsecure, s, e);
      if c.link.Authenticated? {
        var gone := {e.username} + (s.registry.clients.Keys - s'.registry.clients.Keys);
        if c.username.value in gone {
          assert !Get(s', id).link.Authenticated?;
        } else {
          assert c.username.value in s'.registry.clients;
        }
      }
    }
  }

  /** On every run, with insecure requests or without, an authenticated connection belongs to a client that is paired:
      unpairing a client, or the last administrator, ends every session it concerns. */
  lemma {:induction false} AuthenticatedIsPaired(allowInsecure: bool, restored: Registry, events: seq<Event>, id: nat)
    ensures Known(Run(allowInsecure, restored, events), id)
  {
    if events != [] {
      AuthenticatedIsPaired(allowInsecure, restored, events[..|events| - 1], id);
      StepKeeps(allowInsecure, Run(allowInsecure, restored, events[..|events| - 1]), events[|events| - 1], id);
    }
  }

  // ---------------------------------------------------------------- no signature counts twice

  lemma {:induction false} SessionsDiffer(allowInsecure: bool, restored: Registry, events: seq<Event>, i: nat, j: nat)
    requires i != j
    ensures var s := Run(allowInsecure, restored, events);
      Get(s, i).session.Some? ==> Get(s, i).session != Get(s, j).session
  {
    if events != [] {
      var earlier := events[..|events| - 1];
      SessionsDiffer(allowInsecure, restored, earlier, i, j);
      AuthenticatedIsPaired(allowInsecure, restored, earlier, i);
      AuthenticatedIsPaired(allowInsecure, restored, earlier, j);
    }
  }

  /** The signatures for this session have had their one chance, on whatever connection they are sent. */
  ghost predicate Spent(s: Server, session: nat) {
    && session < s.nextSession
    && forall id <- s.connections :: s.connections[id].verifying ==> s.connections[id].session != Some(session)
  }

  lemma AcceptanceSpends(allowInsecure: bool, restored: Registry, events: seq<Event>, e: Event)
    requires e.Third?
      && Accepts(Run(allowInsecure, restored, events).registry,
                 Get(Run(allowInsecure, restored, events), e.connection), e.packet)
    ensures Spent(Run(allowInsecure, restored, events + [e]), e.packet.signature.value.session)
  {
    assert (events + [e])[..|events|] == events;
    var s, s' := Run(allowInsecure, restored, events), Run(allowInsecure, restored, events + [e]);
    AuthenticatedIsPaired(allowInsecure, restored, events, e.connection);
    forall id <- s'.connections | s'.connections[id].verifying
      ensures s'.connections[id].session != Some(e.packet.signature.value.session)
    {
      SessionsDiffer(allowInsecure, restored, events, e.connection, id);
    }
  }

  lemma StaysSpent(allowInsecure: bool, s: Server, e: Event, session: nat)
    requires Spent(s, session)
    ensures Spent(Step(allowInsecure, s, e), session)
  {
  }

  lemma {:induction false} RunStaysSpent(allowInsecure: bool, restored: Registry, events: seq<Event>,
                                         more: seq<Event>, session: nat)
    requires Spent(Run(allowInsecure, restored, events), session)
    ensures Spent(Run(allowInsecure, restored, events + more), session)
  {
    if more == [] {
      assert events + more == events;
    } else {
      var fewer, e := more[..|more| - 1], more[|more| - 1];
      RunStaysSpent(allowInsecure, restored, events, fewer, session);
      assert (events + more)[..|events + more| - 1] == events + fewer;
      StaysSpent(allowInsecure, Run(allowInsecure, restored, events + fewer), e, session);
    }
  }

  /** A signature authenticates once: sent again, on this connection or another, now or later, it is not accepted. */
  lemma NoReplay(allowInsecure: bool, restored: Registry, events: seq<Event>, e: Event, more: seq<Event>, replay: Event)
    requires e.Third? && replay.Third?
    requires Accepts(Run(allowInsecure, restored, events).registry,
                     Get(Run(allowInsecure, restored, events), e.connection), e.packet)
    requires replay.packet.Complete? && replay.packet.signature == e.packet.signature
    ensures var s := Run(allowInsecure, restored, events + [e] + more);
      !Accepts(s.registry, Get(s, replay.connection), replay.packet)
  {
    AcceptanceSpends(allowInsecure, restored, events, e);
    RunStaysSpent(allowInsecure, restored, events + [e], more, e.packet.signature.value.session);
  }

  // ---------------------------------------------------------------- what each event does to a connection

  /** The M1 messages with a usable key so far. */
  function SessionsStarted(events: seq<Event>): nat {
    if events == [] then 0
    else
      var e := events[|events| - 1];
      SessionsStarted(events[..|events| - 1]) + if e.First? && e.usable then 1 else 0
  }

  /** The last usable M1 of a connection, by its number. */
  function SessionOf(events: seq<Event>, id: nat): Option<nat> {
    if events == [] then None
    else
      var earlier := events[..|events| - 1];
      if events[|events| - 1] == First(id, true) then Some(SessionsStarted(earlier)) else SessionOf(earlier, id)
  }

  lemma {:induction false} SessionsAreNumbered(allowInsecure: bool, restored: Registry, events: seq<Event>, id: nat)
    ensures Run(allowInsecure, restored, events).nextSession == SessionsStarted(events)
    ensures Get(Run(allowInsecure, restored, events), id).session == SessionOf(events, id)
  {
    if events != [] {
      var earlier, e := events[..|events| - 1], events[|events| - 1];
      SessionsAreNumbered(allowInsecure, restored, earlier, id);
      SessionsStep(allowInsecure, Run(allowInsecure, restored, earlier), e, id);
    }
  }

  lemma SessionsStep(allowInsecure: bool, s: Server, e: Event, id: nat)
    ensures Step(allowInsecure, s, e).nextSession == s.nextSession + if e.First? && e.usable then 1 else 0
    ensures Get(Step(allowInsecure, s, e), id).session ==
      if e == First(id, true) then Some(s.nextSession) else Get(s, id).session
  {
  }

  /** M3 on a connection that waits for it: a paired client has signed the ephemeral keys of the connection's last M1
      and its own name, with the key it is paired with. */
  predicate Proves(r: Registry, session: Option<nat>, packet: Packet) {
    && packet.Complete? && packet.username in r.clients && packet.signature.Some? && session.Some?
    && packet.signature.value.key == r.clients[packet.username].publicKey
    && packet.signature.value.session == session.value
    && packet.signature.value.username == packet.username
  }

  /** On every run, a connection becomes authenticated, and as whom, if and only if M3 proves it; nothing else makes
      it so or renames it. */
  lemma AuthenticatesIff(allowInsecure: bool, restored: Registry, events: seq<Event>, e: Event, id: nat)
    ensures var (s, s') := (Run(allowInsecure, restored, events), Run(allowInsecure, restored, events + [e]));
      var (c, c') := (Get(s, id), Get(s', id));
      var proven := e.Third? && e.connection == id && c.verifying
        && Proves(s.registry, SessionOf(events, id), e.packet);
      && (proven ==> c'.link == Authenticated && c'.username == Some(e.packet.username))
      && (!proven ==> (c'.link.Authenticated? ==> c.link.Authenticated?) && c'.username == c.username)
  {
    assert (events + [e])[..|events|] == events;
    SessionsAreNumbered(allowInsecure, restored, events, id);
    AuthenticatedStep(allowInsecure, Run(allowInsecure, restored, events), e, id);
  }

  lemma AuthenticatedStep(allowInsecure: bool, s: Server, e: Event, id: nat)
    ensures var (c, c') := (Get(s, id), Get(Step(allowInsecure, s, e), id));
      var proven := e.Third? && e.connection == id && c.verifying && Proves(s.registry, c.session, e.packet);
      && (proven ==> c'.link == Authenticated && c'.username == Some(e.packet.username))
      && (!proven ==> (c'.link.Authenticated? ==> c.link.Authenticated?) && c'.username == c.username)
  {
  }

  /** A usable M1 makes a connection wait for M3, and M3 ends that whatever comes of it, except that verifying a
      signature of the wrong size throws. */
  lemma VerifyingIff(allowInsecure: bool, s: Server, e: Event, id: nat)
    ensures Get(Step(allowInsecure, s, e), id).verifying <==>
      || e == First(id, true)
      || (&& Get(s, id).verifying
          && (e.Third? && e.connection == id ==>
                e.packet.Complete? && e.packet.username in s.registry.clients && e.packet.signature.None?))
  {
  }

  /** A connection is listed under a client from the time it has proved to be that client until its socket closes while
      it still goes by that name. */
  lemma ListedIff(allowInsecure: bool, s: Server, e: Event, username: Username, id: nat)
    ensures (username, id) in Step(allowInsecure, s, e).named <==>
      || (&& e.Third? && e.connection == id && Get(s, id).verifying
          && Proves(s.registry, Get(s, id).session, e.packet) && e.packet.username == username)
      || ((username, id) in s.named && !(e == SocketClosed(id) && Get(s, id).username == Some(username)))
  {
  }

  /** The client a removal is about, and everybody else if it leaves no administrator. */
  ghost function Gone(s: Server, e: Event): set<Username>
    requires e.RemovePairing?
  {
    var r := RemoveRequested(s.registry, Get(s, e.connection).username, e.username);
    {e.username} + (s.registry.clients.Keys - r.clients.Keys)
  }

  ghost predicate Lists(s: Server, clients: set<Username>, id: nat) {
    exists u :: u in clients && (u, id) in s.named
  }

  ghost predicate Administrates(allowInsecure: bool, s: Server, id: nat) {
    var c := Get(s, id);
    && (allowInsecure || c.link.Authenticated?)
    && c.username.Some? && c.username.value != "" && c.username.value in Admins(s.registry)
  }

  lemma {:induction false} ListedAreKnown(allowInsecure: bool, restored: Registry, events: seq<Event>, u: Username,
                                          id: nat)
    ensures var s := Run(allowInsecure, restored, events); (u, id) in s.named ==> id in s.connections
  {
    if events != [] {
      var earlier, e := events[..|events| - 1], events[|events| - 1];
      ListedAreKnown(allowInsecure, restored, earlier, u, id);
      ListedIff(allowInsecure, Run(allowInsecure, restored, earlier), e, u, id);
    }
  }

  /** On every run, the state of a connection after an event. Besides proving who it belongs to, only its socket and an
      administrator's removal of a client it is listed under change it: the administrator's own connection is torn down
      after the response, all others are told to close, unless they are closing already. */
  lemma LinkIs(allowInsecure: bool, restored: Registry, events: seq<Event>, e: Event, id: nat)
    ensures var (s, s') := (Run(allowInsecure, restored, events), Run(allowInsecure, restored, events + [e]));
      var c := Get(s, id);
      Get(s', id).link ==
        if e == SocketClosed(id) then Closed
        else if e.Third? && e.connection == id && c.verifying && Proves(s.registry, c.session, e.packet) then
          Authenticated
        else if e.RemovePairing? && Administrates(allowInsecure, s, e.connection) && Lists(s, Gone(s, e), id) then
          if e.connection == id then TearingDown else if c.link.Closed? then Closed else Closing
        else c.link
  {
    var s := Run(allowInsecure, restored, events);
    assert (events + [e])[..|events|] == events;
    if e.RemovePairing? {
      forall u | (u, id) in s.named ensures id in s.connections {
        ListedAreKnown(allowInsecure, restored, events, u, id);
      }
      RemovalEnds(allowInsecure, s, e, id);
    }
  }

  lemma RemovalEnds(allowInsecure: bool, s: Server, e: Event, id: nat)
    requires e.RemovePairing? && (Lists(s, Gone(s, e), id) ==> id in s.connections)
    ensures Get(Step(allowInsecure, s, e), id).link ==
      if Administrates(allowInsecure, s, e.connection) && Lists(s, Gone(s, e), id) then
        if e.connection == id then TearingDown else if Get(s, id).link.Closed? then Closed else Closing
      else Get(s, id).link
  {
    assert HasAdminPermissions(s.registry, Get(s, e.connection).username) <==> Administrates(true, s, e.connection);
  }

  /** Pair Setup pairs its client as an administrator; otherwise only an administrator's connection changes who is
      paired, and only so. */
  lemma AdministrationIff(allowInsecure: bool, s: Server, e: Event)
    ensures var (r, r') := (s.registry, Step(allowInsecure, s, e).registry);
      if e.Paired? then r'.clients == r.clients[e.username := Client(e.key, ADMIN)]
      else !e.AddPairing? && !e.RemovePairing? ==> r' == r
    ensures e.AddPairing? || e.RemovePairing? ==>
      var (r, r') := (s.registry, Step(allowInsecure, s, e).registry);
      var administrates := Administrates(allowInsecure, s, e.connection);
      && (!administrates ==> r' == r)
      && (administrates && e.RemovePairing? ==> e.username !in r'.clients && r'.clients.Keys <= r.clients.Keys)
      && (administrates && e.RemovePairing? && Counted(r) && !(Admins(r) <= {e.username}) ==>
            r'.clients == r.clients - {e.username})
      && (administrates && e.AddPairing? ==>
            if e.username in r.clients && r.clients[e.username].publicKey != e.key then r' == r
            else r'.clients == r.clients[e.username := Client(e.key, e.permission)])
  {
    if e.AddPairing? || e.RemovePairing? {
      var requester := Get(s, e.connection).username;
      assert HasAdminPermissions(s.registry, requester) <==> Administrates(true, s, e.connection);
      if e.RemovePairing? && Counted(s.registry) { RemoveRequestedIff(s.registry, requester, e.username); }
    }
  }

  // ---------------------------------------------------------------- the objects

  class HAPConnection {
    var state: Link
    var username: Option<Username>
    var pairVerifying: bool
    var encryption: Option<nat>

    ghost function View(): Connection
      reads this
    {
      Connection(state, username, pairVerifying, encryption)
    }

    constructor ()
      ensures View() == NEW_CONNECTION
    {
      state, username, pairVerifying, encryption := Open, None, false, None;
    }

    method Close()
      modifies this
      ensures View() == Unpaired(old(View()), false)
    {
      if state.Closing? || state.Closed? {
        return;
      }
      state := Closing;
    }

    method CloseConnectionAsOfUnpair(initiator: HAPConnection)
      modifies this
      ensures View() == Unpaired(old(View()), this == initiator)
    {
      if this == initiator {
        state := TearingDown;
      } else {
        Close();
      }
    }
  }

  class EventedHTTPServer {
    var connectionsByUsername: map<Username, seq<HAPConnection>>

    ghost function Named(username: Username): set<HAPConnection>
      reads this
    {
      if username in connectionsByUsername then set c | c in connectionsByUsername[username] else {}
    }

    ghost predicate Valid()
      reads this
    {
      forall u <- connectionsByUsername :: forall i, j ::
        0 <= i < j < |connectionsByUsername[u]| ==> connectionsByUsername[u][i] != connectionsByUsername[u][j]
    }

    constructor ()
      ensures Valid() && connectionsByUsername == map[]
    {
      connectionsByUsername := map[];
    }

    method HandleConnectionAuthenticated(connection: HAPConnection, username: Username)
      requires Valid()
      modifies this
      ensures Valid()
      ensures Named(username) == old(Named(username)) + {connection}
      ensures forall u :: u != username ==> Named(u) == old(Named(u))
    {
      if username !in connectionsByUsername {
        connectionsByUsername := connectionsByUsername[username := [connection]];
      } else if connection !in connectionsByUsername[username] {
        connectionsByUsername := connectionsByUsername[username := connectionsByUsername[username] + [connection]];
      }
    }

    method DestroyExistingConnectionsAfterUnpair(initiator: HAPConnection, username: Username)
      requires Valid()
      modifies Named(username)
      ensures forall c <- Named(username) :: c.View() == Unpaired(old(c.View()), c == initiator)
    {
      if username in connectionsByUsername {
        var connections := connectionsByUsername[username];
        var k := 0;
        while k < |connections|
          invariant 0 <= k <= |connections|
          invariant forall i :: 0 <= i < k ==>
            connections[i].View() == Unpaired(old(connections[i].View()), connections[i] == initiator)
          invariant forall i :: k <= i < |connections| ==> connections[i].View() == old(connections[i].View())
        {
          connections[k].CloseConnectionAsOfUnpair(initiator);
          k := k + 1;
        }
      }
    }
  }

  class HAPServer {
    const httpServer: EventedHTTPServer
    const accessoryInfo: AccessoryInfo
    var nextSession: nat

    constructor ()
      ensures fresh(httpServer) && fresh(accessoryInfo) && httpServer.Valid() && nextSession == 0
    {
      httpServer := new EventedHTTPServer();
      accessoryInfo := new AccessoryInfo();
      nextSession := 0;
    }

    method HandlePairVerifyM1(connection: HAPConnection, usable: bool)
      modifies this, connection
      ensures connection.View() ==
        if usable then old(connection.View()).(verifying := true, session := Some(old(nextSession)))
        else old(connection.View())
      ensures nextSession == old(nextSession) + if usable then 1 else 0
    {
      if !usable {
        return;
      }
      connection.encryption := Some(nextSession);
      nextSession := nextSession + 1;
      connection.pairVerifying := true;
    }

    method HandlePairVerifyM3(connection: HAPConnection, packet: Packet)
      requires httpServer.Valid() && connection.pairVerifying && connection.encryption.Some?
      modifies connection, httpServer
      ensures httpServer.Valid()
      ensures connection.View() == Verified(accessoryInfo.View(), old(connection.View()), packet)
      ensures Accepts(accessoryInfo.View(), old(connection.View()), packet) ==>
        forall u :: httpServer.Named(u) == old(httpServer.Named(u)) + if u == packet.username then {connection} else {}
      ensures !Accepts(accessoryInfo.View(), old(connection.View()), packet) ==>
        forall u :: httpServer.Named(u) == old(httpServer.Named(u))
    {
      if !packet.Complete? {
        connection.pairVerifying := false;
        return;
      }
      if packet.username !in accessoryInfo.pairedClients {
        connection.pairVerifying := false;
        return;
      }
      var clientPublicKey := accessoryInfo.pairedClients[packet.username].publicKey;
      if packet.signature.None? {
        return;
      }
      if packet.signature.value != Signature(clientPublicKey, connection.encryption.value, packet.username) {
        connection.pairVerifying := false;
        return;
      }
      connection.state := Authenticated;
      connection.username := Some(packet.username);
      httpServer.HandleConnectionAuthenticated(connection, packet.username);
      connection.pairVerifying := false;
    }
  }
}
