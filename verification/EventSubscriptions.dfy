/** Event notifications: the connections registered for a characteristic and the number of subscriptions it counts. */
module EventSubscriptions {
  import opened HapTypes

  datatype Emission = SUBSCRIBE | UNSUBSCRIBE

  datatype Counter = Counter(subscriptions: int, emitted: seq<Emission>)

  /** Who is registered for what, every characteristic there ever is, and the ones the accessory finds right now. */
  datatype Hub<Connection(==)> = Hub(registered: set<(Connection, Id)>, counters: map<Id, Counter>, present: set<Id>)

  /** What the write of an event flag finds: whether the characteristic notifies, and whether the connection may. */
  datatype Access = Access(notifies: bool, privileged: bool)

  datatype Event<Connection> =
    | EventWrite(connection: Connection, id: Id, enable: bool, access: Access)
    | Close(connection: Connection)
    | Change(present: set<Id>)

  const FRESH := Counter(0, [])

  function Max(x: int, y: int): int { if x >= y then x else y }

  function Subscribed(c: Counter): Counter {
    Counter(c.subscriptions + 1, if c.subscriptions == 0 then c.emitted + [SUBSCRIBE] else c.emitted)
  }

  function Unsubscribed(c: Counter): Counter {
    Counter(Max(c.subscriptions - 1, 0), if c.subscriptions == 1 then c.emitted + [UNSUBSCRIBE] else c.emitted)
  }

  function Refusal(present: bool, access: Access): Status {
    if !present then INVALID_VALUE_IN_REQUEST
    else if !access.notifies then NOTIFICATION_NOT_SUPPORTED
    else if !access.privileged then INSUFFICIENT_PRIVILEGES
    else SUCCESS
  }

  ghost function Written<Connection>(h: Hub<Connection>, connection: Connection, id: Id, enable: bool): Hub<Connection>
    requires id in h.counters
  {
    var has := (connection, id) in h.registered;
    if enable && !has then
      h.(registered := h.registered + {(connection, id)}, counters := h.counters[id := Subscribed(h.counters[id])])
    else if !enable && has then
      h.(registered := h.registered - {(connection, id)}, counters := h.counters[id := Unsubscribed(h.counters[id])])
    else h
  }

  ghost function Closed<Connection>(h: Hub<Connection>, connection: Connection): Hub<Connection> {
    Hub(set p | p in h.registered && p.0 != connection,
        map id | id in h.counters ::
          if id in h.present && (connection, id) in h.registered then Unsubscribed(h.counters[id]) else h.counters[id],
        h.present)
  }

  ghost function Step<Connection>(h: Hub<Connection>, e: Event<Connection>): Hub<Connection> {
    match e
    case EventWrite(connection, id, enable, access) =>
      if id in h.counters && Refusal(id in h.present, access).SUCCESS? then Written(h, connection, id, enable) else h
    case Close(connection) => Closed(h, connection)
    case Change(present) => h.(present := present * h.counters.Keys)
  }

  ghost function Run<Connection>(known: set<Id>, events: seq<Event<Connection>>): Hub<Connection> {
    if events == [] then Hub({}, map id | id in known :: FRESH, known)
    else Step(Run(known, events[..|events| - 1]), events[|events| - 1])
  }

  // ---------------------------------------------------------------- who is registered

  /** The characteristics the accessory finds: those it knows of the last change, or all. */
  function PresentAfter<Connection>(known: set<Id>, events: seq<Event<Connection>>): set<Id> {
    if events == [] then known
    else
      match events[|events| - 1]
      case Change(present) => present * known
      case _ => PresentAfter(known, events[..|events| - 1])
  }

  /** A write of the event flag is heeded when the characteristic is there and notifies and the connection may ask. */
  predicate Heeded<Connection>(known: set<Id>, events: seq<Event<Connection>>, e: Event<Connection>)
    requires e.EventWrite?
  {
    e.id in PresentAfter(known, events) && e.access.notifies && e.access.privileged
  }

  /** The connection asked for events last and has not closed since. */
  predicate Asks<Connection(==)>(known: set<Id>, events: seq<Event<Connection>>, connection: Connection, id: Id) {
    if events == [] then false
    else
      var earlier, e := events[..|events| - 1], events[|events| - 1];
      match e
      case EventWrite(c, i, enable, _) =>
        if c == connection && i == id && Heeded(known, earlier, e) then enable else Asks(known, earlier, connection, id)
      case Close(c) => c != connection && Asks(known, earlier, connection, id)
      case Change(_) => Asks(known, earlier, connection, id)
  }

  lemma {:induction false} PresentIsKept<Connection>(known: set<Id>, events: seq<Event<Connection>>)
    ensures Run(known, events).present == PresentAfter(known, events) <= known
  {
    if events != [] {
      PresentIsKept(known, events[..|events| - 1]);
      CountersStay(known, events[..|events| - 1]);
    }
  }

  /** On every run, a connection is registered for a characteristic if and only if the last of its requests that was
      heeded asked for events and it has not closed since. */
  lemma {:induction false} RegisteredIff<Connection>(known: set<Id>, events: seq<Event<Connection>>,
                                                     connection: Connection, id: Id)
    ensures (connection, id) in Run(known, events).registered <==> Asks(known, events, connection, id)
  {
    if events != [] {
      var earlier, e := events[..|events| - 1], events[|events| - 1];
      RegisteredIff(known, earlier, connection, id);
      PresentIsKept(known, earlier);
      CountersStay(known, earlier);
      RegisteredStep(Run(known, earlier), e, connection, id);
    }
  }

  lemma RegisteredStep<Connection>(h: Hub<Connection>, e: Event<Connection>, connection: Connection, id: Id)
    requires h.present <= h.counters.Keys
    ensures (connection, id) in Step(h, e).registered <==>
      match e
      case EventWrite(c, i, enable, access) =>
        if c == connection && i == id && id in h.present && access.notifies && access.privileged then enable
        else (connection, id) in h.registered
      case Close(c) => c != connection && (connection, id) in h.registered
      case Change(_) => (connection, id) in h.registered
  {
  }

  /** Why a write of the event flag is refused; the first of the three reasons counts. */
  lemma RefusalIff(present: bool, access: Access)
    ensures Refusal(present, access) == INVALID_VALUE_IN_REQUEST <==> !present
    ensures Refusal(present, access) == NOTIFICATION_NOT_SUPPORTED <==> present && !access.notifies
    ensures Refusal(present, access) == INSUFFICIENT_PRIVILEGES <==> present && access.notifies && !access.privileged
    ensures Refusal(present, access) == SUCCESS <==> present && access.notifies && access.privileged
  {
  }

  // ---------------------------------------------------------------- counting registrations

  ghost function Registrations<Connection>(h: Hub<Connection>, id: Id): set<(Connection, Id)> {
    set p | p in h.registered && p.1 == id
  }

  /** The closes that found no characteristic to unsubscribe from. */
  ghost function Lost<Connection>(known: set<Id>, events: seq<Event<Connection>>, id: Id): nat {
    if events == [] then 0
    else
      var h, e := Run(known, events[..|events| - 1]), events[|events| - 1];
      Lost(known, events[..|events| - 1], id)
      + if e.Close? && (e.connection, id) in h.registered && id !in h.present then 1 else 0
  }

  lemma WriteCounts<Connection>(h: Hub<Connection>, e: Event<Connection>, id: Id)
    requires e.EventWrite? && id in h.counters
    ensures id in Step(h, e).counters
    ensures var before, after := Registrations(h, id), Registrations(Step(h, e), id);
      if after == before then Step(h, e).counters[id] == h.counters[id]
      else if e.enable then |after| == |before| + 1 && Step(h, e).counters[id] == Subscribed(h.counters[id])
      else |after| == |before| - 1 && Step(h, e).counters[id] == Unsubscribed(h.counters[id])
  {
    var p := (e.connection, e.id);
    var before, after := Registrations(h, id), Registrations(Step(h, e), id);
    if e.id != id {
      assert after == before;
    } else if Step(h, e).registered == h.registered + {p} && p !in h.registered {
      assert after == before + {p};
    } else if Step(h, e).registered == h.registered - {p} && p in h.registered {
      assert after == before - {p};
    }
  }

  lemma CloseCounts<Connection>(h: Hub<Connection>, connection: Connection, id: Id)
    requires id in h.counters
    ensures var registered := (connection, id) in h.registered;
      && |Registrations(Closed(h, connection), id)| == |Registrations(h, id)| - (if registered then 1 else 0)
      && Closed(h, connection).counters[id] ==
        if registered && id in h.present then Unsubscribed(h.counters[id]) else h.counters[id]
  {
    assert Registrations(Closed(h, connection), id) == Registrations(h, id) - {(connection, id)};
  }

  lemma {:induction false} CountersStay<Connection>(known: set<Id>, events: seq<Event<Connection>>)
    ensures Run(known, events).counters.Keys == known
  {
    if events != [] { CountersStay(known, events[..|events| - 1]); }
  }

  /** A characteristic counts the connections registered for it, plus those that closed while the accessory did not
      find it. So the clamp at zero never acts. */
  lemma {:induction false} SubscriptionsAreRegistrations<Connection>(known: set<Id>, events: seq<Event<Connection>>,
                                                                     id: Id)
    requires id in known
    ensures id in Run(known, events).counters
    ensures var h := Run(known, events);
      h.counters[id].subscriptions == |Registrations(h, id)| + Lost(known, events, id)
  {
    CountersStay(known, events);
    if events == [] {
      assert Registrations(Run(known, events), id) == {};
    } else {
      var earlier, e := events[..|events| - 1], events[|events| - 1];
      SubscriptionsAreRegistrations(known, earlier, id);
      var h := Run(known, earlier);
      match e
      case EventWrite(_, _, _, _) => WriteCounts(h, e, id);
      case Close(connection) =>
        CloseCounts(h, connection, id);
        if (connection, id) in h.registered { assert (connection, id) in Registrations(h, id); }
      case Change(_) => assert Registrations(Run(known, events), id) == Registrations(h, id);
    }
  }

  /** The count is exact if and only if no registered connection closed while the accessory did not find the
      characteristic. */
  lemma CountExactIff<Connection>(known: set<Id>, events: seq<Event<Connection>>, id: Id)
    requires id in known
    ensures id in Run(known, events).counters
    ensures var h := Run(known, events);
      h.counters[id].subscriptions == |Registrations(h, id)| <==>
      forall k ::
        0 <= k < |events| && events[k].Close? && (events[k].connection, id) in Run(known, events[..k]).registered ==>
          id in Run(known, events[..k]).present
  {
    SubscriptionsAreRegistrations(known, events, id);
    LostNothingIff(known, events, id);
  }

  lemma {:induction false} LostNothingIff<Connection>(known: set<Id>, events: seq<Event<Connection>>, id: Id)
    ensures Lost(known, events, id) == 0 <==>
      forall k ::
        0 <= k < |events| && events[k].Close? && (events[k].connection, id) in Run(known, events[..k]).registered ==>
          id in Run(known, events[..k]).present
  {
    if events != [] {
      var n := |events| - 1;
      var earlier := events[..n];
      LostNothingIff(known, earlier, id);
      assert forall k :: 0 <= k < n ==> earlier[k] == events[k] && earlier[..k] == events[..k];
      var h := Run(known, earlier);
      var kept := events[n].Close? && (events[n].connection, id) in h.registered ==> id in h.present;
      assert Lost(known, events, id) == 0 <==> (Lost(known, earlier, id) == 0 && kept);
    }
  }

  // ---------------------------------------------------------------- SUBSCRIBE and UNSUBSCRIBE

  function Edge(before: nat, after: nat): seq<Emission> {
    if before == 0 && after > 0 then [SUBSCRIBE]
    else if before > 0 && after == 0 then [UNSUBSCRIBE]
    else []
  }

  /** The changes between nobody and somebody that the numbers of registered connections go through. */
  ghost function Edges<Connection>(known: set<Id>, events: seq<Event<Connection>>, id: Id): seq<Emission> {
    if events == [] then []
    else
      var earlier := events[..|events| - 1];
      Edges(known, earlier, id)
        + Edge(|Registrations(Run(known, earlier), id)|, |Registrations(Run(known, events), id)|)
  }

  lemma EmitsEdge(c: Counter, before: nat, after: nat)
    requires c.subscriptions == before
    ensures after == before + 1 ==> Subscribed(c).emitted == c.emitted + Edge(before, after)
    ensures after == before - 1 ==> Unsubscribed(c).emitted == c.emitted + Edge(before, after)
    ensures after == before ==> c.emitted == c.emitted + Edge(before, after)
  {
  }

  /** As long as nothing is lost, SUBSCRIBE is emitted exactly when the first connection registers, and UNSUBSCRIBE
      exactly when the last one goes. */
  lemma {:induction false} EmissionsAreEdges<Connection>(known: set<Id>, events: seq<Event<Connection>>, id: Id)
    requires id in known && Lost(known, events, id) == 0
    ensures id in Run(known, events).counters
    ensures Run(known, events).counters[id].emitted == Edges(known, events, id)
  {
    CountersStay(known, events);
    if events != [] {
      var earlier, e := events[..|events| - 1], events[|events| - 1];
      EmissionsAreEdges(known, earlier, id);
      SubscriptionsAreRegistrations(known, earlier, id);
      var h, h' := Run(known, earlier), Run(known, events);
      EmitsEdge(h.counters[id], |Registrations(h, id)|, |Registrations(h', id)|);
      match e
      case EventWrite(_, _, _, _) => WriteCounts(h, e, id);
      case Close(connection) => CloseCounts(h, connection, id);
      case Change(_) => assert Registrations(h', id) == Registrations(h, id);
    }
  }

  ghost predicate Alternates(c: Counter) {
    && c.subscriptions >= 0
    && (forall k :: 0 <= k < |c.emitted| ==> c.emitted[k] == if k % 2 == 0 then SUBSCRIBE else UNSUBSCRIBE)
    && (|c.emitted| % 2 == 1 <==> c.subscriptions > 0)
  }

  lemma AlternationKept(c: Counter)
    requires Alternates(c)
    ensures Alternates(Subscribed(c)) && Alternates(Unsubscribed(c))
  {
  }

  /** With or without losses, SUBSCRIBE and UNSUBSCRIBE alternate, starting with SUBSCRIBE, and the last one says
      whether there are subscriptions. */
  lemma {:induction false} EmissionsAlternate<Connection>(known: set<Id>, events: seq<Event<Connection>>, id: Id)
    requires id in known
    ensures id in Run(known, events).counters && Alternates(Run(known, events).counters[id])
  {
    CountersStay(known, events);
    if events != [] {
      var earlier, e := events[..|events| - 1], events[|events| - 1];
      EmissionsAlternate(known, earlier, id);
      var h := Run(known, earlier);
      AlternationKept(h.counters[id]);
      match e
      case EventWrite(_, _, _, _) => WriteCounts(h, e, id);
      case Close(connection) => CloseCounts(h, connection, id);
      case Change(_) =>
    }
  }

  // ---------------------------------------------------------------- the objects

  class Characteristic {
    var subscriptions: int
    ghost var emitted: seq<Emission>

    ghost function View(): Counter
      reads this
    {
      Counter(subscriptions, emitted)
    }

    constructor ()
      ensures View() == FRESH
    {
      subscriptions, emitted := 0, [];
    }

    method Subscribe()
      modifies this
      ensures View() == Subscribed(old(View()))
    {
      if subscriptions == 0 {
        emitted := emitted + [SUBSCRIBE];
      }
      subscriptions := subscriptions + 1;
    }

    method Unsubscribe()
      modifies this
      ensures View() == Unsubscribed(old(View()))
    {
      var wasOne := subscriptions == 1;
      subscriptions := subscriptions - 1;
      subscriptions := Max(subscriptions, 0);
      if wasOne {
        emitted := emitted + [UNSUBSCRIBE];
      }
    }
  }

  class HAPConnection {
    var registeredEvents: set<Id>

    constructor ()
      ensures registeredEvents == {}
    {
      registeredEvents := {};
    }
  }

  class Accessory {
    const known: map<Id, Characteristic>
    var present: set<Id>
    ghost var connections: set<HAPConnection>

    ghost predicate Valid()
      reads this
    {
      && present <= known.Keys
      && (forall i, j :: i in known && j in known && i != j ==> known[i] != known[j])
    }

    ghost function Registered(): set<(HAPConnection, Id)>
      reads this, connections
    {
      set c, id | c in connections && id in c.registeredEvents :: (c, id)
    }

    ghost function Counters(): map<Id, Counter>
      reads known.Values
    {
      map id | id in known :: known[id].View()
    }

    ghost function View(): Hub<HAPConnection>
      reads this, connections, known.Values
    {
      Hub(Registered(), Counters(), present)
    }

    method Register(connection: HAPConnection, id: Id, enable: bool)
      requires connection in connections
      modifies connection
      ensures Registered() ==
        if enable then old(Registered()) + {(connection, id)} else old(Registered()) - {(connection, id)}
    {
      if enable {
        connection.registeredEvents := connection.registeredEvents + {id};
      } else {
        connection.registeredEvents := connection.registeredEvents - {id};
      }
    }

    method Count(id: Id, enable: bool)
      requires Valid() && id in present
      modifies known[id]
      ensures Counters()
        == old(Counters())[id := if enable then Subscribed(old(Counters()[id])) else Unsubscribed(old(Counters()[id]))]
    {
      if enable {
        known[id].Subscribe();
      } else {
        known[id].Unsubscribe();
      }
    }

    /** A permitted write does nothing when notifications are as asked for already. */
    method Switch(connection: HAPConnection, id: Id, enable: bool)
      requires Valid() && connection in connections && id in present
      modifies connection, known.Values
      ensures View() == Written(old(View()), connection, id, enable)
    {
      var notificationsEnabled := id in connection.registeredEvents;
      if enable && !notificationsEnabled {
        Register(connection, id, true);
        Count(id, true);
      } else if !enable && notificationsEnabled {
        Count(id, false);
        Register(connection, id, false);
      }
    }

    /** The part of a write that enables or disables event notifications. */
    method HandleEventWrite(connection: HAPConnection, id: Id, enable: bool, access: Access) returns (status: Status)
      requires Valid() && connection in connections
      modifies connection, known.Values
      ensures status == Refusal(id in present, access)
      ensures View() == Step(old(View()), EventWrite(connection, id, enable, access))
    {
      if id !in present {
        return INVALID_VALUE_IN_REQUEST;
      }
      if !access.notifies {
        return NOTIFICATION_NOT_SUPPORTED;
      }
      if !access.privileged {
        return INSUFFICIENT_PRIVILEGES;
      }
      Switch(connection, id, enable);
      status := SUCCESS;
    }

    /** The loop over the events a connection is registered for. */
    method UnsubscribeFromAll(events: set<Id>)
      requires Valid()
      modifies known.Values
      ensures Counters() == map id | id in known ::
        if id in present && id in events then Unsubscribed(old(Counters())[id]) else old(Counters())[id]
    {
      ghost var before := Counters();
      var remaining := events;
      while remaining != {}
        invariant remaining <= events
        invariant forall id <- known ::
          known[id].View() ==
            if id in present && id in events - remaining then Unsubscribed(before[id]) else before[id]
        decreases |remaining|
      {
        var id :| id in remaining;
        remaining := remaining - {id};
        if id in present {
          known[id].Unsubscribe();
        }
      }
    }

    method HandleHAPConnectionClosed(connection: HAPConnection)
      requires Valid() && connection in connections
      modifies connection, known.Values
      ensures Valid()
      ensures View() == Step(old(View()), Close(connection))
    {
      ghost var before := View();
      UnsubscribeFromAll(connection.registeredEvents);
      assert Registered() == before.registered;
      label Unsubscribed:
      connection.registeredEvents := {};
      assert Counters() == Closed(before, connection).counters by {
        assert Counters() == old@Unsubscribed(Counters());
      }
      assert Registered() == Closed(before, connection).registered;
    }
  }
}
