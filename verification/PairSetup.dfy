/** Pair Setup (HomeKit Accessory Protocol Specification, section 5.6) over any number of connections. What the
    cryptography says about a message is part of the message. */
module PairSetup {
  import opened Pairings
  import opened Wrappers

  /** The two values `_pairSetupState` takes besides undefined. */
  datatype Phase = M2 | M4

  /** `srp` numbers the SRP server attached to the connection; `generating` counts the SRP keys still being made. */
  datatype Connection = Connection(phase: Option<Phase>, srp: Option<nat>, generating: nat)

  datatype Pair = Pair(connection: nat, srp: nat, username: Username, key: Key)

  /** `accepted` holds the SRP servers whose proof was accepted, `pairs` what PAIR was emitted for. */
  datatype Server = Server(nextSrp: nat, accepted: set<nat>, attempts: nat, registry: Registry, pairs: seq<Pair>)

  datatype World = World(connections: map<nat, Connection>, server: Server)

  datatype Proof = Raises | Wrong | Right

  /** An `Unverifiable` packet has a key or a signature of the wrong size, which makes the verification throw. */
  datatype Packet = TooShort | Undecryptable | Undecodable | Incomplete | Unverifiable | BadlySigned
    | Good(username: Username, key: Key)

  /** The TLV of a request, by its sequence number. */
  datatype Message = Malformed | First | Third(proof: Proof) | Fifth(packet: Packet) | OtherSequence

  datatype Reply = UNAVAILABLE | MAX_TRIES | BAD_REQUEST | DELAYED | RAISED | AUTHENTICATION_ERROR | UNKNOWN_ERROR
    | PROOF_ACCEPTED | PAIRED

  datatype Event =
    | Request(connection: nat, message: Message)
    | Generated(connection: nat)
    | GenerationFails(connection: nat)
    | AddPairing(requester: Option<Username>, username: Username, key: Key, permission: Permission)
    | RemovePairing(requester: Option<Username>, username: Username)

  const NEW_CONNECTION := Connection(None, None, 0)

  function Restored(registry: Registry): World {
    World(map[], Server(0, {}, 0, registry, []))
  }

  // ---------------------------------------------------------------- the messages

  predicate Closed(allowInsecure: bool, s: Server) {
    !allowInsecure && s.registry.clients != map[]
  }

  predicate Exhausted(s: Server) {
    s.attempts > 100
  }

  /** The message a connection in its phase goes on with, if the server still listens. */
  predicate Proceeds(allowInsecure: bool, c: Connection, s: Server, m: Message) {
    && !Closed(allowInsecure, s) && !Exhausted(s)
    && match m
       case First => c.phase.None?
       case Third(_) => c.phase == Some(M2)
       case Fifth(_) => c.phase == Some(M4)
       case _ => false
  }

  function Proved(c: Connection, s: Server, proof: Proof): (Connection, Server)
    requires c.srp.Some?
  {
    match proof
    case Raises => (c, s)
    case Wrong => (c.(phase := None), s.(attempts := s.attempts + 1))
    case Right => (c.(phase := Some(M4)), s.(accepted := s.accepted + {c.srp.value}))
  }

  function Exchanged(id: nat, c: Connection, s: Server, packet: Packet): (Connection, Server)
    requires c.srp.Some?
  {
    match packet
    case Good(username, key) =>
      (c.(phase := None),
       s.(registry := Added(s.registry, username, key, ADMIN),
          pairs := s.pairs + [Pair(id, c.srp.value, username, key)]))
    case Unverifiable => (c, s)
    case _ => (c.(phase := None), s)
  }

  /** Going on without an SRP server would throw and change nothing. */
  function OnRequest(allowInsecure: bool, id: nat, c: Connection, s: Server, m: Message): (Connection, Server) {
    if !Proceeds(allowInsecure, c, s, m) then (c, s)
    else if m.First? then (c.(generating := c.generating + 1), s)
    else if c.srp.None? then (c, s)
    else if m.Third? then Proved(c, s, m.proof)
    else Exchanged(id, c, s, m.packet)
  }

  function OnGenerated(c: Connection, s: Server): (Connection, Server) {
    if c.generating == 0 then (c, s)
    else (Connection(Some(M2), Some(s.nextSrp), c.generating - 1), s.(nextSrp := s.nextSrp + 1))
  }

  function Get(w: World, id: nat): Connection {
    if id in w.connections then w.connections[id] else NEW_CONNECTION
  }

  function Put(w: World, id: nat, r: (Connection, Server)): World {
    World(w.connections[id := r.0], r.1)
  }

  ghost function Step(allowInsecure: bool, w: World, e: Event): World {
    match e
    case Request(id, m) => Put(w, id, OnRequest(allowInsecure, id, Get(w, id), w.server, m))
    case Generated(id) => Put(w, id, OnGenerated(Get(w, id), w.server))
    case GenerationFails(id) => Put(w, id, (Get(w, id).(generating := Less(Get(w, id).generating)), w.server))
    case AddPairing(requester, username, key, permission) =>
      w.(server := w.server.(registry := AddRequested(w.server.registry, requester, username, key, permission)))
    case RemovePairing(requester, username) =>
      w.(server := w.server.(registry := RemoveRequested(w.server.registry, requester, username)))
  }

  function Less(n: nat): nat { if n == 0 then 0 else n - 1 }

  // ---------------------------------------------------------------- what every step keeps

  ghost predicate Sound(c: Connection, s: Server) {
    && (c.phase.Some? ==> c.srp.Some?)
    && (c.srp.Some? ==> c.srp.value < s.nextSrp)
    && (c.phase == Some(M2) ==> c.srp.value !in s.accepted)
    && (c.phase == Some(M4) ==> c.srp.value in s.accepted)
    && (c.phase == Some(M4) ==> forall p <- s.pairs :: p.srp != c.srp.value)
  }

  ghost predicate PairsSound(s: Server) {
    && (forall srp <- s.accepted :: srp < s.nextSrp)
    && (forall p <- s.pairs :: p.srp in s.accepted)
    && (forall i, j :: 0 <= i < j < |s.pairs| ==> s.pairs[i].srp != s.pairs[j].srp)
    && s.attempts <= 101
  }

  ghost predicate Invariant(w: World) {
    && (forall id <- w.connections :: Sound(w.connections[id], w.server))
    && (forall i <- w.connections, j <- w.connections ::
          i != j && w.connections[i].srp.Some? ==> w.connections[i].srp != w.connections[j].srp)
    && PairsSound(w.server)
  }

  lemma RequestKeeps(allowInsecure: bool, w: World, id: nat, m: Message)
    requires Invariant(w)
    ensures Invariant(Step(allowInsecure, w, Request(id, m)))
  {
    var c, s := Get(w, id), w.server;
    assert Sound(c, s);
    var r := OnRequest(allowInsecure, id, c, s, m);
    assert r.0.srp == c.srp && r.1.nextSrp == s.nextSrp;
    assert Sound(r.0, r.1) && PairsSound(r.1);
    forall i <- w.connections | i != id ensures Sound(w.connections[i], r.1) {
      assert Sound(w.connections[i], s);
    }
  }

  lemma GeneratedKeeps(allowInsecure: bool, w: World, id: nat)
    requires Invariant(w)
    ensures Invariant(Step(allowInsecure, w, Generated(id)))
  {
    var c, s := Get(w, id), w.server;
    assert Sound(c, s);
    var r := OnGenerated(c, s);
    assert Sound(r.0, r.1);
    forall i <- w.connections | i != id
      ensures Sound(w.connections[i], r.1) && (r.0 == c || w.connections[i].srp != r.0.srp)
    {
      assert Sound(w.connections[i], s);
    }
  }

  lemma StepKeeps(allowInsecure: bool, w: World, e: Event)
    requires Invariant(w)
    ensures Invariant(Step(allowInsecure, w, e))
  {
    match e
    case Request(id, m) => RequestKeeps(allowInsecure, w, id, m);
    case Generated(id) => GeneratedKeeps(allowInsecure, w, id);
    case _ =>
  }

  /** Whether insecure requests are allowed, and the clients restored from disk. */
  datatype Config = Config(allowInsecure: bool, restored: Registry)

  function Secure(restored: Registry): Config {
    Config(false, restored)
  }

  ghost function Run(config: Config, events: seq<Event>): World {
    if events == [] then Restored(config.restored)
    else Step(config.allowInsecure, Run(config, events[..|events| - 1]), events[|events| - 1])
  }

  lemma {:induction false} RunKeeps(config: Config, events: seq<Event>)
    ensures Invariant(Run(config, events))
  {
    if events != [] {
      var w := Run(config, events[..|events| - 1]);
      RunKeeps(config, events[..|events| - 1]);
      StepKeeps(config.allowInsecure, w, events[|events| - 1]);
    }
  }

  lemma RunStep(config: Config, events: seq<Event>, k: nat)
    requires k < |events|
    ensures Run(config, events[..k + 1]) == Step(config.allowInsecure, Run(config, events[..k]), events[k])
  {
    assert events[..k + 1][..k] == events[..k];
  }

  lemma RunAppended(config: Config, events: seq<Event>, e: Event)
    ensures Run(config, events + [e]) == Step(config.allowInsecure, Run(config, events), e)
  {
    assert (events + [e])[..|events|] == events;
  }

  // ---------------------------------------------------------------- what each event does

  /** The server listens while nobody is paired, or anyway, and not after too many wrong proofs. */
  predicate Listens(allowInsecure: bool, s: Server) {
    (allowInsecure || s.registry.clients == map[]) && s.attempts <= 100
  }

  /** The phase after a message the server listens to. Messages out of turn, an exception while a proof or a signature
      is looked at and a first message leave it; everything else that is not right starts over. */
  function NextPhase(phase: Option<Phase>, m: Message): Option<Phase> {
    match (phase, m)
    case (Some(M2), Third(Right)) => Some(M4)
    case (Some(M2), Third(Wrong)) => None
    case (Some(M4), Fifth(Unverifiable)) => Some(M4)
    case (Some(M4), Fifth(_)) => None
    case _ => phase
  }

  /** What a request does to its connection and the server. */
  lemma RequestIs(allowInsecure: bool, w: World, id: nat, m: Message)
    requires Invariant(w)
    ensures var w' := Step(allowInsecure, w, Request(id, m));
      var (c, c') := (Get(w, id), Get(w', id));
      var (s, s') := (w.server, w'.server);
      var listens := Listens(allowInsecure, s);
      var pairs := listens && c.phase == Some(M4) && m.Fifth? && m.packet.Good?;
      && c'.phase == (if listens then NextPhase(c.phase, m) else c.phase) && c'.srp == c.srp
      && c'.generating == c.generating + (if listens && c.phase == None && m.First? then 1 else 0)
      && s'.attempts == s.attempts + (if listens && c.phase == Some(M2) && m == Third(Wrong) then 1 else 0)
      && (pairs ==> c.srp.Some? && s'.pairs == s.pairs + [Pair(id, c.srp.value, m.packet.username, m.packet.key)])
      && (pairs ==> s'.registry.clients == s.registry.clients[m.packet.username := Client(m.packet.key, ADMIN)])
      && (!pairs ==> s'.pairs == s.pairs && s'.registry == s.registry)
  {
    assert Sound(Get(w, id), w.server);
  }

  /** An SRP key that is ready becomes the new SRP server of its connection, whatever its phase, and the connection
      waits for a proof of it; one that cannot be made changes nothing but that it is not waited for any more. */
  lemma GenerationIs(allowInsecure: bool, w: World, e: Event)
    requires (e.Generated? || e.GenerationFails?) && Get(w, e.connection).generating > 0
    ensures var w' := Step(allowInsecure, w, e);
      var (c, c') := (Get(w, e.connection), Get(w', e.connection));
      && c'.generating == c.generating - 1
      && w'.server == w.server.(nextSrp := w'.server.nextSrp)
      && if e.Generated? then
           c'.phase == Some(M2) && c'.srp == Some(w.server.nextSrp) && w'.server.nextSrp == w.server.nextSrp + 1
         else
           c'.phase == c.phase && c'.srp == c.srp && w'.server == w.server
  {
  }

  /** Administration changes who is paired as far as an administrator asks for it, and no connection. */
  lemma AdministrationIs(allowInsecure: bool, w: World, e: Event)
    requires e.AddPairing? || e.RemovePairing?
    ensures var (w', r) := (Step(allowInsecure, w, e), w.server.registry);
      var admin := e.requester.Some? && e.requester.value != "" && e.requester.value in Admins(r);
      var refused := !admin || (e.AddPairing? && e.username in r.clients && r.clients[e.username].publicKey != e.key);
      && w'.connections == w.connections && w'.server == w.server.(registry := w'.server.registry)
      && (refused ==> w' == w)
      && (!refused && e.AddPairing? ==>
            w'.server.registry.clients == r.clients[e.username := Client(e.key, e.permission)])
      && (!refused && e.RemovePairing? && Counted(r) ==>
            w'.server.registry.clients ==
            if Admins(r) <= {e.username} then map[] else r.clients - {e.username})
  {
    if e.RemovePairing? && Counted(w.server.registry) {
      RemoveRequestedIff(w.server.registry, e.requester, e.username);
    }
  }

  /** Events concern one connection at most. */
  lemma OthersAreLeft(allowInsecure: bool, w: World, e: Event, id: nat)
    requires e.AddPairing? || e.RemovePairing? || e.connection != id
    ensures Get(Step(allowInsecure, w, e), id) == Get(w, id)
  {
  }

  // ---------------------------------------------------------------- PAIR needs a proof

  ghost function After(config: Config, events: seq<Event>, n: nat, id: nat): Connection
    requires n <= |events|
  {
    Get(Run(config, events[..n]), id)
  }

  /** Since event `j` accepted a proof for it, the connection has stayed in M4 with the same SRP server. */
  ghost predicate ProvedAt(config: Config, events: seq<Event>, n: nat, id: nat, j: nat)
    requires n <= |events|
  {
    && j < n
    && events[j] == Request(id, Third(Right))
    && After(config, events, j, id).phase == Some(M2)
    && forall i :: j < i <= n ==> Stands(After(config, events, i, id), After(config, events, j, id).srp)
  }

  predicate Stands(c: Connection, srp: Option<nat>) {
    c.phase == Some(M4) && c.srp == srp
  }

  lemma M4Comes(allowInsecure: bool, w: World, e: Event, id: nat)
    requires Invariant(w) && Get(Step(allowInsecure, w, e), id).phase == Some(M4)
    ensures Get(w, id).srp == Get(Step(allowInsecure, w, e), id).srp
    ensures Get(w, id).phase == Some(M4) || (Get(w, id).phase == Some(M2) && e == Request(id, Third(Right)))
  {
  }

  lemma M4ComesAfter(config: Config, events: seq<Event>, n: nat, id: nat)
    requires 0 < n <= |events| && After(config, events, n, id).phase == Some(M4)
    ensures var before := After(config, events, n - 1, id);
      && before.srp == After(config, events, n, id).srp
      && (before.phase == Some(M4) || (before.phase == Some(M2) && events[n - 1] == Request(id, Third(Right))))
  {
    RunStep(config, events, n - 1);
    RunKeeps(config, events[..n - 1]);
    M4Comes(config.allowInsecure, Run(config, events[..n - 1]), events[n - 1], id);
  }

  /** In M4 a proof stands behind every connection, even when SRP keys arrive late. */
  lemma {:induction false} ProofBehindM4(config: Config, events: seq<Event>, n: nat, id: nat) returns (j: nat)
    requires n <= |events| && After(config, events, n, id).phase == Some(M4)
    ensures ProvedAt(config, events, n, id, j)
  {
    assert n != 0;
    M4ComesAfter(config, events, n, id);
    if After(config, events, n - 1, id).phase == Some(M4) {
      j := ProofBehindM4(config, events, n - 1, id);
    } else {
      j := n - 1;
    }
  }

  /** PAIR is emitted only on the message of a connection in M4, and that connection's current SRP server had its proof
      accepted at an earlier message, with nothing resetting it in between. */
  lemma PairNeedsProof(config: Config, events: seq<Event>, e: Event) returns (j: nat)
    requires Run(config, events + [e]).server.pairs != Run(config, events).server.pairs
    ensures e.Request? && e.message.Fifth? && e.message.packet.Good?
    ensures Get(Run(config, events), e.connection).srp.Some?
    ensures Run(config, events + [e]).server.pairs == Run(config, events).server.pairs
      + [Pair(e.connection, Get(Run(config, events), e.connection).srp.value, e.message.packet.username,
              e.message.packet.key)]
    ensures ProvedAt(config, events, |events|, e.connection, j)
  {
    RunAppended(config, events, e);
    RunKeeps(config, events);
    assert events[..|events|] == events;
    j := ProofBehindM4(config, events, |events|, e.connection);
  }

  /** One SRP server pairs at most one client. */
  lemma SessionsPairOnce(config: Config, events: seq<Event>, i: nat, j: nat)
    requires i < j < |Run(config, events).server.pairs|
    ensures Run(config, events).server.pairs[i].srp != Run(config, events).server.pairs[j].srp
  {
    RunKeeps(config, events);
  }

  // ---------------------------------------------------------------- the number of attempts

  predicate IsFailure(allowInsecure: bool, w: World, e: Event) {
    && e.Request? && e.message == Third(Wrong)
    && Proceeds(allowInsecure, Get(w, e.connection), w.server, e.message)
  }

  /** The wrong proofs the server had a look at. */
  ghost function Failures(config: Config, events: seq<Event>): nat {
    if events == [] then 0
    else
      var earlier := events[..|events| - 1];
      Failures(config, earlier)
      + if IsFailure(config.allowInsecure, Run(config, earlier), events[|events| - 1]) then 1 else 0
  }

  lemma FailureCounts(allowInsecure: bool, w: World, e: Event)
    requires Invariant(w)
    ensures Step(allowInsecure, w, e).server.attempts
      == w.server.attempts + if IsFailure(allowInsecure, w, e) then 1 else 0
  {
  }

  lemma {:induction false} FailuresAreCounted(config: Config, events: seq<Event>)
    ensures Run(config, events).server.attempts == Failures(config, events)
  {
    if events != [] {
      FailuresAreCounted(config, events[..|events| - 1]);
      RunKeeps(config, events[..|events| - 1]);
      FailureCounts(config.allowInsecure, Run(config, events[..|events| - 1]), events[|events| - 1]);
    }
  }

  /** The server looks at no more than 101 wrong proofs, whoever sends them; after that nobody is paired any more. */
  lemma AttemptsAreLimited(config: Config, events: seq<Event>, e: Event)
    ensures Failures(config, events) <= 101
    ensures Failures(config, events) == 101 ==>
      && Run(config, events + [e]).server.pairs == Run(config, events).server.pairs
      && Failures(config, events + [e]) == 101
  {
    FailuresAreCounted(config, events);
    FailuresAreCounted(config, events + [e]);
    RunKeeps(config, events);
    RunAppended(config, events, e);
  }

  function Guessing(n: nat): seq<Event> {
    if n == 0 then [] else Guessing(n - 1) + [Request(0, First)] + [Generated(0)] + [Request(0, Third(Wrong))]
  }

  ghost predicate Guessed(w: World, n: nat) {
    w.server.attempts == n && w.server.registry == UNPAIRED && Get(w, 0).phase == None && Get(w, 0).generating == 0
  }

  /** The limit is 101 and no less: one connection can have that many wrong proofs looked at. */
  lemma {:induction false} LimitIsReached(n: nat)
    requires n <= 101
    ensures Guessed(Run(Secure(UNPAIRED), Guessing(n)), n)
  {
    if n != 0 {
      LimitIsReached(n - 1);
      var before := Guessing(n - 1);
      RunAppended(Secure(UNPAIRED), before, Request(0, First));
      RunAppended(Secure(UNPAIRED), before + [Request(0, First)], Generated(0));
      RunAppended(Secure(UNPAIRED), before + [Request(0, First)] + [Generated(0)], Request(0, Third(Wrong)));
    }
  }

  // ---------------------------------------------------------------- one client between unpairings

  /** Without insecure requests, nobody is paired while somebody is. */
  lemma PairsOnlyTheUnpaired(restored: Registry, events: seq<Event>, e: Event)
    requires Run(Secure(restored), events + [e]).server.pairs != Run(Secure(restored), events).server.pairs
    ensures Run(Secure(restored), events).server.registry.clients == map[]
    ensures Run(Secure(restored), events + [e]).server.registry.clients
      == map[e.message.packet.username := Client(e.message.packet.key, ADMIN)]
    ensures Run(Secure(restored), events + [e]).server.registry.admins
      == Run(Secure(restored), events).server.registry.admins + 1
  {
    RunAppended(Secure(restored), events, e);
  }

  lemma OnlyRemovalEmpties(allowInsecure: bool, w: World, e: Event)
    requires w.server.registry.clients != map[] && Step(allowInsecure, w, e).server.registry.clients == map[]
    ensures e.RemovePairing?
  {
  }

  ghost predicate UnpairedAfter(restored: Registry, events: seq<Event>, n: nat)
    requires n <= |events|
  {
    Run(Secure(restored), events[..n]).server.registry.clients == map[]
  }

  lemma {:induction false} RemovalBetween(restored: Registry, events: seq<Event>, k: nat, l: nat) returns (i: nat)
    requires k <= l <= |events|
    requires !UnpairedAfter(restored, events, k) && UnpairedAfter(restored, events, l)
    ensures k <= i < l && events[i].RemovePairing?
    ensures !UnpairedAfter(restored, events, i) && UnpairedAfter(restored, events, i + 1)
    decreases l
  {
    RunStep(Secure(restored), events, l - 1);
    if UnpairedAfter(restored, events, l - 1) {
      i := RemovalBetween(restored, events, k, l - 1);
    } else {
      OnlyRemovalEmpties(false, Run(Secure(restored), events[..l - 1]), events[l - 1]);
      i := l - 1;
    }
  }

  /** Event `k` has PAIR emitted. */
  ghost predicate PairsAt(config: Config, events: seq<Event>, k: nat)
    requires k < |events|
  {
    Run(config, events[..k + 1]).server.pairs != Run(config, events[..k]).server.pairs
  }

  /** So between two events that pair, a removal has left the accessory without any client. */
  lemma OnePairBetweenUnpairings(restored: Registry, events: seq<Event>, k: nat, l: nat) returns (i: nat)
    requires k < l < |events| && PairsAt(Secure(restored), events, k) && PairsAt(Secure(restored), events, l)
    ensures k < i < l && events[i].RemovePairing?
    ensures !UnpairedAfter(restored, events, i) && UnpairedAfter(restored, events, i + 1)
  {
    assert events[..k] + [events[k]] == events[..k + 1];
    assert events[..l] + [events[l]] == events[..l + 1];
    PairsOnlyTheUnpaired(restored, events[..k], events[k]);
    PairsOnlyTheUnpaired(restored, events[..l], events[l]);
    assert events[k].message.packet.username in Run(Secure(restored), events[..k + 1]).server.registry.clients;
    i := RemovalBetween(restored, events, k + 1, l);
  }

  // ---------------------------------------------------------------- the number of administrators

  /** Whether `e` has PAIR emitted for a client that is an administrator already. */
  ghost predicate Repairs(allowInsecure: bool, w: World, e: Event) {
    && Step(allowInsecure, w, e).server.pairs != w.server.pairs
    && e.message.packet.username in Admins(w.server.registry)
  }

  ghost function Repairings(config: Config, events: seq<Event>): nat {
    if events == [] then 0
    else
      var earlier := events[..|events| - 1];
      Repairings(config, earlier)
      + if Repairs(config.allowInsecure, Run(config, earlier), events[|events| - 1]) then 1 else 0
  }

  lemma StepDrifts(allowInsecure: bool, w: World, e: Event)
    ensures Drift(Step(allowInsecure, w, e).server.registry)
      == Drift(w.server.registry) + if Repairs(allowInsecure, w, e) then 1 else 0
  {
    var r := w.server.registry;
    match e
    case Request(_, Fifth(Good(username, key))) => AddingDrifts(r, username, key, ADMIN);
    case AddPairing(requester, username, key, permission) =>
      AdministrationKeepsDrift(r, requester, username, key, permission);
    case RemovePairing(requester, username) => AdministrationKeepsDrift(r, requester, username, 0, USER);
    case _ =>
  }

  /** On every run the count of administrators is off by the number of PAIRs for clients that were administrators
      already, insecure requests or not. */
  lemma {:induction false} RepairingsAreMiscounted(config: Config, events: seq<Event>)
    ensures Drift(Run(config, events).server.registry) == Drift(config.restored) + Repairings(config, events)
    ensures Counted(config.restored) ==>
      (Counted(Run(config, events).server.registry) <==> Repairings(config, events) == 0)
  {
    if events != [] {
      var earlier := events[..|events| - 1];
      RepairingsAreMiscounted(config, earlier);
      StepDrifts(config.allowInsecure, Run(config, earlier), events[|events| - 1]);
    }
  }

  /** Without insecure requests there are none, so the count is right on every run. */
  lemma {:induction false} AdministratorsAreCounted(restored: Registry, events: seq<Event>)
    ensures Repairings(Secure(restored), events) == 0
    ensures Counted(restored) ==> Counted(Run(Secure(restored), events).server.registry)
  {
    if events != [] {
      AdministratorsAreCounted(restored, events[..|events| - 1]);
    }
    RepairingsAreMiscounted(Secure(restored), events);
  }

  /** Once the only administrator has given up its permission, nothing changes who is paired ever again. */
  lemma {:induction false} LockedOut(restored: Registry, events: seq<Event>, more: seq<Event>)
    requires Counted(restored)
    requires Run(Secure(restored), events).server.registry.clients != map[]
      && Admins(Run(Secure(restored), events).server.registry) == {}
    ensures Run(Secure(restored), events + more).server.registry == Run(Secure(restored), events).server.registry
    ensures Run(Secure(restored), events + more).server.pairs == Run(Secure(restored), events).server.pairs
  {
    if more == [] {
      assert events + more == events;
    } else {
      var fewer, e := more[..|more| - 1], more[|more| - 1];
      LockedOut(restored, events, fewer);
      assert events + more == (events + fewer) + [e];
      RunAppended(Secure(restored), events + fewer, e);
      AdministratorsAreCounted(restored, events);
      NothingChanges(Run(Secure(restored), events + fewer), e);
    }
  }

  lemma NothingChanges(w: World, e: Event)
    requires w.server.registry.clients != map[] && Admins(w.server.registry) == {} && Counted(w.server.registry)
    ensures Step(false, w, e).server.registry == w.server.registry && Step(false, w, e).server.pairs == w.server.pairs
  {
    match e
    case AddPairing(requester, username, key, permission) =>
      AdministrationNeedsAdmins(w.server.registry, requester, username, key, permission);
    case RemovePairing(requester, username) =>
      AdministrationNeedsAdmins(w.server.registry, requester, username, 0, USER);
    case _ =>
  }

  // ---------------------------------------------------------------- the objects

  class HAPConnection {
    const id: nat
    var pairSetupState: Option<Phase>
    var srpServer: Option<nat>
    ghost var generating: nat

    ghost function View(): Connection
      reads this
    {
      Connection(pairSetupState, srpServer, generating)
    }

    constructor (id: nat)
      ensures View() == NEW_CONNECTION && this.id == id
    {
      this.id, pairSetupState, srpServer, generating := id, None, None, 0;
    }
  }

  class HAPServer {
    const allowInsecureRequest: bool
    const accessoryInfo: AccessoryInfo
    var unsuccessfulPairAttempts: nat
    var nextSrp: nat
    ghost var accepted: set<nat>
    ghost var pairs: seq<Pair>

    ghost function View(): Server
      reads this, accessoryInfo
    {
      Server(nextSrp, accepted, unsuccessfulPairAttempts, accessoryInfo.View(), pairs)
    }

    constructor (allowInsecureRequest: bool)
      ensures this.allowInsecureRequest == allowInsecureRequest && fresh(accessoryInfo)
      ensures View() == Restored(UNPAIRED).server
    {
      this.allowInsecureRequest := allowInsecureRequest;
      accessoryInfo := new AccessoryInfo();
      unsuccessfulPairAttempts, nextSrp, accepted, pairs := 0, 0, {}, [];
    }

    method HandlePairSetup(connection: HAPConnection, message: Message) returns (reply: Reply)
      requires connection.pairSetupState.Some? ==> connection.srpServer.Some?
      modifies this, connection, accessoryInfo
      ensures (connection.View(), View())
        == OnRequest(allowInsecureRequest, connection.id, old(connection.View()), old(View()), message)
      ensures reply.UNAVAILABLE? <==> Closed(allowInsecureRequest, old(View()))
      ensures reply.MAX_TRIES? <==> !Closed(allowInsecureRequest, old(View())) && Exhausted(old(View()))
      ensures reply.PROOF_ACCEPTED?
        <==> connection.pairSetupState == Some(M4) && old(connection.pairSetupState) == Some(M2)
      ensures reply.PAIRED? <==> pairs != old(pairs)
      ensures reply.BAD_REQUEST? <==>
        && !Closed(allowInsecureRequest, old(View())) && !Exhausted(old(View()))
        && !Proceeds(allowInsecureRequest, old(connection.View()), old(View()), message)
      ensures Proceeds(allowInsecureRequest, old(connection.View()), old(View()), message) ==>
        match message
        case Third(Raises) => reply.RAISED?
        case Third(Wrong) => reply.AUTHENTICATION_ERROR?
        case Third(Right) => reply.PROOF_ACCEPTED?
        case Fifth(Good(_, _)) => reply.PAIRED?
        case Fifth(Undecodable) => reply.UNKNOWN_ERROR?
        case Fifth(Incomplete) => reply.UNKNOWN_ERROR?
        case Fifth(Unverifiable) => reply.RAISED?
        case Fifth(_) => reply.AUTHENTICATION_ERROR?
        case _ => reply.DELAYED?
    {
      if !allowInsecureRequest && accessoryInfo.pairedClients != map[] {
        return UNAVAILABLE;
      }
      if unsuccessfulPairAttempts > 100 {
        return MAX_TRIES;
      }
      match message {
        case Malformed => return BAD_REQUEST;
        case OtherSequence => return BAD_REQUEST;
        case First =>
          if connection.pairSetupState != None {
            return BAD_REQUEST;
          }
          connection.generating := connection.generating + 1;
          return DELAYED;
        case Third(proof) =>
          if connection.pairSetupState != Some(M2) {
            return BAD_REQUEST;
          }
          reply := HandlePairSetupM3(connection, proof);
        case Fifth(packet) =>
          if connection.pairSetupState != Some(M4) {
            return BAD_REQUEST;
          }
          reply := HandlePairSetupM5(connection, packet);
      }
    }

    /** The continuation of M1, whenever the key is ready. */
    method OnKeyGenerated(connection: HAPConnection)
      requires connection.generating > 0
      modifies this, connection
      ensures (connection.View(), View()) == OnGenerated(old(connection.View()), old(View()))
    {
      connection.srpServer := Some(nextSrp);
      nextSrp := nextSrp + 1;
      connection.generating := connection.generating - 1;
      connection.pairSetupState := Some(M2);
    }

    method HandlePairSetupM3(connection: HAPConnection, proof: Proof) returns (reply: Reply)
      requires connection.srpServer.Some? && connection.pairSetupState == Some(M2)
      modifies this, connection
      ensures (connection.View(), View()) == Proved(old(connection.View()), old(View()), proof)
      ensures reply == match proof case Raises => RAISED case Wrong => AUTHENTICATION_ERROR case Right => PROOF_ACCEPTED
    {
      if proof.Raises? {
        return RAISED;
      }
      if proof.Wrong? {
        unsuccessfulPairAttempts := unsuccessfulPairAttempts + 1;
        connection.pairSetupState := None;
        return AUTHENTICATION_ERROR;
      }
      accepted := accepted + {connection.srpServer.value};
      connection.pairSetupState := Some(M4);
      reply := PROOF_ACCEPTED;
    }

    method HandlePairSetupM5(connection: HAPConnection, packet: Packet) returns (reply: Reply)
      requires connection.srpServer.Some? && connection.pairSetupState == Some(M4)
      modifies this, connection, accessoryInfo
      ensures (connection.View(), View()) == Exchanged(connection.id, old(connection.View()), old(View()), packet)
      ensures reply == match packet
        case Good(_, _) => PAIRED
        case Undecodable => UNKNOWN_ERROR
        case Incomplete => UNKNOWN_ERROR
        case Unverifiable => RAISED
        case _ => AUTHENTICATION_ERROR
    {
      if packet.TooShort? || packet.Undecryptable? {
        connection.pairSetupState := None;
        return AUTHENTICATION_ERROR;
      }
      if packet.Undecodable? || packet.Incomplete? {
        connection.pairSetupState := None;
        return UNKNOWN_ERROR;
      }
      if packet.Unverifiable? {
        return RAISED;
      }
      if packet.BadlySigned? {
        connection.pairSetupState := None;
        return AUTHENTICATION_ERROR;
      }
      pairs := pairs + [Pair(connection.id, connection.srpServer.value, packet.username, packet.key)];
      accessoryInfo.AddPairedClient(packet.username, packet.key, ADMIN);
      connection.pairSetupState := None;
      reply := PAIRED;
    }
  }
}
