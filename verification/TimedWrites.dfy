/** Timed writes (HomeKit Accessory Protocol Specification, section 6.7.2.4) and the checks a characteristic write has
    to pass before its value reaches the characteristic. */
module TimedWrites {
  import opened HapTypes
  import opened Wrappers
  import Requests = RequestAggregator

  datatype WriteState = REGULAR_REQUEST | TIMED_WRITE_AUTHENTICATED | TIMED_WRITE_REJECTED

  datatype Verdict = Allows | Denies | Throws

  /** What the permissions of a characteristic say about events and writes. */
  datatype Target = Target(
    notify: bool,
    adminOnlyNotify: bool,
    pairedWrite: bool,
    adminOnlyWrite: bool,
    additionalAuthorization: bool,
    timedWrite: bool)

  /** `verdict` is what the authorization handler of the characteristic, if there is one, says about this item. */
  datatype Item<Value> = Item(id: Id, ev: Option<bool>, value: Option<Value>, verdict: Option<Verdict>)

  /** The accessory as one request finds it: the characteristics, and whether the connection belongs to an admin. */
  datatype Situation = Situation(targets: map<Id, Target>, admin: bool)

  /** What one item of a write comes to: an event flag set, a value handed to the characteristic, or a status. The
      status is absent exactly when the handler of the characteristic decides. */
  datatype Handled<Value> = Handled(flag: Option<bool>, handedOver: Option<Value>, status: Option<Status>)

  // ---------------------------------------------------------------- one item

  function Refusal<Value>(item: Item<Value>, s: Situation, state: WriteState): Option<Status> {
    if item.id !in s.targets then Some(INVALID_VALUE_IN_REQUEST)
    else if state.TIMED_WRITE_REJECTED? then Some(INVALID_VALUE_IN_REQUEST)
    else if item.ev.None? && item.value.None? then Some(INVALID_VALUE_IN_REQUEST)
    else if item.ev.None? then None
    else if !s.targets[item.id].notify then Some(NOTIFICATION_NOT_SUPPORTED)
    else if s.targets[item.id].adminOnlyNotify && !s.admin then Some(INSUFFICIENT_PRIVILEGES)
    else None
  }

  function ValueRefusal<Value>(item: Item<Value>, target: Target, admin: bool, state: WriteState): Option<Status> {
    if !target.pairedWrite then Some(READ_ONLY_CHARACTERISTIC)
    else if target.adminOnlyWrite && !admin then Some(INSUFFICIENT_PRIVILEGES)
    else if target.additionalAuthorization && item.verdict.Some? && !item.verdict.value.Allows? then
      Some(INSUFFICIENT_AUTHORIZATION)
    else if target.timedWrite && !state.TIMED_WRITE_AUTHENTICATED? then Some(INVALID_VALUE_IN_REQUEST)
    else None
  }

  function Handle<Value>(item: Item<Value>, s: Situation, state: WriteState): Handled<Value> {
    var refusal := Refusal(item, s, state);
    if refusal.Some? then Handled(None, None, refusal)
    else if item.value.None? then Handled(item.ev, None, Some(SUCCESS))
    else
      var refusal := ValueRefusal(item, s.targets[item.id], s.admin, state);
      Handled(item.ev, if refusal.None? then item.value else None, refusal)
  }

  /** The permissions that let a value through, whatever the order in which they are checked. */
  predicate MayWrite<Value>(item: Item<Value>, target: Target, admin: bool) {
    && target.pairedWrite
    && (target.adminOnlyWrite ==> admin)
    && (target.additionalAuthorization && item.verdict.Some? ==> item.verdict.value.Allows?)
  }

  predicate MayNotify(target: Target, admin: bool) {
    target.notify && (target.adminOnlyNotify ==> admin)
  }

  /** A value is handed over if and only if the request was not rejected, every permission holds, a timed write was
      prepared where one is demanded, and an event flag in the same item is permitted, too. */
  lemma HandedOverIff<Value>(item: Item<Value>, s: Situation, state: WriteState)
    ensures Handle(item, s, state).handedOver.Some? <==>
      && item.value.Some?
      && item.id in s.targets
      && !state.TIMED_WRITE_REJECTED?
      && (item.ev.Some? ==> MayNotify(s.targets[item.id], s.admin))
      && MayWrite(item, s.targets[item.id], s.admin)
      && (s.targets[item.id].timedWrite ==> state.TIMED_WRITE_AUTHENTICATED?)
    ensures Handle(item, s, state).handedOver.Some? ==> Handle(item, s, state).handedOver == item.value
  {
  }

  /** The event flag of an item is set even when the value beside it is then refused. */
  lemma FlagIff<Value>(item: Item<Value>, s: Situation, state: WriteState)
    ensures Handle(item, s, state).flag.Some? <==>
      item.ev.Some? && item.id in s.targets && !state.TIMED_WRITE_REJECTED? && MayNotify(s.targets[item.id], s.admin)
    ensures Handle(item, s, state).flag.Some? ==> Handle(item, s, state).flag == item.ev
  {
  }

  /** The first check that fails decides the status; without a failure it is left to the handler of the value. */
  lemma StatusIs<Value>(item: Item<Value>, s: Situation, state: WriteState)
    ensures var (status, known) := (Handle(item, s, state).status, item.id in s.targets);
      && (!known || state.TIMED_WRITE_REJECTED? || (item.ev.None? && item.value.None?) ==>
            status == Some(INVALID_VALUE_IN_REQUEST))
      && (known && !state.TIMED_WRITE_REJECTED? ==>
            var target := s.targets[item.id];
            if item.ev.Some? && !MayNotify(target, s.admin) then
              status == Some(if target.notify then INSUFFICIENT_PRIVILEGES else NOTIFICATION_NOT_SUPPORTED)
            else if item.value.None? then item.ev.Some? ==> status == Some(SUCCESS)
            else if !target.pairedWrite then status == Some(READ_ONLY_CHARACTERISTIC)
            else if target.adminOnlyWrite && !s.admin then status == Some(INSUFFICIENT_PRIVILEGES)
            else if !MayWrite(item, target, s.admin) then status == Some(INSUFFICIENT_AUTHORIZATION)
            else if target.timedWrite && state.REGULAR_REQUEST? then status == Some(INVALID_VALUE_IN_REQUEST)
            else status == None)
  {
  }

  // ---------------------------------------------------------------- one connection

  /** `armed` holds the expiry timers that will still fire. */
  datatype Prepared = Prepared(pid: Option<int>, timeout: Option<nat>, armed: set<nat>, nextTimer: nat)

  /** `allowed` says whether the connection is authenticated or insecure requests are allowed; a pid or a ttl that is
      absent from the request counts as zero. */
  datatype Event<Value> =
    | Prepare(allowed: bool, pid: int, ttl: int)
    | Expires(timer: nat)
    | Write(claimed: Option<int>, items: seq<Item<Value>>, situation: Situation)

  const NOTHING_PREPARED := Prepared(None, None, {}, 0)

  predicate Accepted<Value>(e: Event<Value>) {
    e.Prepare? && e.allowed && e.pid != 0 && e.ttl != 0
  }

  function PreparedBy(p: Prepared, pid: int): Prepared {
    Prepared(Some(pid), Some(p.nextTimer),
             (if p.timeout.Some? then p.armed - {p.timeout.value} else p.armed) + {p.nextTimer},
             p.nextTimer + 1)
  }

  function StateOf(p: Prepared, pid: Option<int>): WriteState {
    if pid.None? then REGULAR_REQUEST
    else if p.pid == pid then TIMED_WRITE_AUTHENTICATED
    else TIMED_WRITE_REJECTED
  }

  function Acknowledged(p: Prepared): Prepared {
    p.(pid := None, timeout := None, armed := if p.timeout.Some? then p.armed - {p.timeout.value} else p.armed)
  }

  function Step<Value>(p: Prepared, e: Event<Value>): Prepared {
    match e
    case Prepare(_, pid, _) => if Accepted(e) then PreparedBy(p, pid) else p
    case Expires(timer) => if timer in p.armed then p.(pid := None, timeout := None, armed := p.armed - {timer}) else p
    case Write(pid, _, _) => if StateOf(p, pid).TIMED_WRITE_AUTHENTICATED? then Acknowledged(p) else p
  }

  function Run<Value>(events: seq<Event<Value>>): Prepared {
    if events == [] then NOTHING_PREPARED else Step(Run(events[..|events| - 1]), events[|events| - 1])
  }

  ghost predicate Invariant(p: Prepared) {
    && (p.pid.Some? <==> p.timeout.Some?)
    && p.armed == (if p.timeout.Some? then {p.timeout.value} else {})
    && (p.timeout.Some? ==> p.timeout.value < p.nextTimer)
  }

  /** A pid is set exactly when its one expiry timer is armed. */
  lemma {:induction false} OneTimerPerPid<Value>(events: seq<Event<Value>>)
    ensures Invariant(Run(events))
  {
    if events != [] { OneTimerPerPid(events[..|events| - 1]); }
  }

  // ---------------------------------------------------------------- preparations, read off the events alone

  /** How many preparations were accepted; the next one gets this number as its timer. */
  function AcceptedIn<Value>(events: seq<Event<Value>>): nat {
    if events == [] then 0 else AcceptedIn(events[..|events| - 1]) + if Accepted(events[|events| - 1]) then 1 else 0
  }

  /** What puts an end to the preparation at `j`: a newer one, its expiry, or a write with its pid. */
  predicate Ends<Value>(events: seq<Event<Value>>, j: nat, e: Event<Value>)
    requires j < |events| && events[j].Prepare?
  {
    || Accepted(e)
    || e == Expires(AcceptedIn(events[..j]))
    || (e.Write? && e.claimed == Some(events[j].pid))
  }

  ghost predicate Live<Value>(events: seq<Event<Value>>, j: nat) {
    && j < |events|
    && Accepted(events[j])
    && forall i :: j < i < |events| ==> !Ends(events, j, events[i])
  }

  lemma LiveAfter<Value>(events: seq<Event<Value>>, e: Event<Value>, j: nat)
    ensures Live(events + [e], j) <==> if j == |events| then Accepted(e) else Live(events, j) && !Ends(events, j, e)
  {
    var all := events + [e];
    if j < |events| {
      assert all[..j] == events[..j] && all[j] == events[j];
      assert forall i :: 0 <= i < |events| ==> all[i] == events[i];
      assert all[|events|] == e;
    }
  }

  lemma {:induction false} TimersAreNumbered<Value>(events: seq<Event<Value>>)
    ensures Run(events).nextTimer == AcceptedIn(events)
  {
    if events != [] { TimersAreNumbered(events[..|events| - 1]); }
  }

  /** The connection remembers precisely the live preparation: its pid and its timer. */
  ghost predicate Remembers<Value>(p: Prepared, events: seq<Event<Value>>) {
    && (forall j: nat :: Live(events, j) ==> p.pid == Some(events[j].pid) && p.timeout == Some(AcceptedIn(events[..j])))
    && (p.pid.Some? ==> exists j: nat :: Live(events, j))
  }

  lemma StepRemembers<Value>(p: Prepared, events: seq<Event<Value>>, e: Event<Value>)
    requires Invariant(p) && Remembers(p, events) && p.nextTimer == AcceptedIn(events)
    ensures Remembers(Step(p, e), events + [e])
  {
    var all, p' := events + [e], Step(p, e);
    assert all[..|events|] == events;
    forall j: nat | Live(all, j) ensures p'.pid == Some(all[j].pid) && p'.timeout == Some(AcceptedIn(all[..j])) {
      LiveAfter(events, e, j);
      if j < |events| { assert all[..j] == events[..j]; }
    }
    if p'.pid.Some? {
      if Accepted(e) {
        LiveAfter(events, e, |events|);
        assert Live(all, |events|);
      } else {
        var j: nat :| Live(events, j);
        LiveAfter(events, e, j);
        assert Live(all, j);
      }
    }
  }

  lemma {:induction false} RunRemembers<Value>(events: seq<Event<Value>>)
    ensures Remembers(Run(events), events)
  {
    if events != [] {
      var earlier, e := events[..|events| - 1], events[|events| - 1];
      RunRemembers(earlier);
      OneTimerPerPid(earlier);
      TimersAreNumbered(earlier);
      StepRemembers(Run(earlier), earlier, e);
      assert earlier + [e] == events;
    }
  }

  /** A write is taken for a prepared one if and only if it carries the pid of a preparation that is live. */
  lemma AuthenticatedIff<Value>(events: seq<Event<Value>>, pid: Option<int>)
    ensures StateOf(Run(events), pid).TIMED_WRITE_AUTHENTICATED?
      <==> exists j: nat :: Live(events, j) && Some(events[j].pid) == pid
  {
    RunRemembers(events);
  }

  ghost predicate AuthenticatedAt<Value>(events: seq<Event<Value>>, k: nat)
    requires k < |events|
  {
    events[k].Write? && StateOf(Run(events[..k]), events[k].claimed).TIMED_WRITE_AUTHENTICATED?
  }

  lemma LiveBefore<Value>(events: seq<Event<Value>>, k: nat, j: nat)
    requires j < k <= |events|
    ensures Live(events, j) ==> Live(events[..k], j)
  {
    assert events[..k][..j] == events[..j];
    if Live(events, j) {
      forall i | j < i < k ensures !Ends(events[..k], j, events[..k][i]) {
        assert !Ends(events, j, events[i]);
      }
    }
  }

  lemma WriteEnds<Value>(events: seq<Event<Value>>, k: nat, j: nat)
    requires j < k < |events| && AuthenticatedAt(events, k)
    ensures !Live(events, j)
  {
    LiveBefore(events, k, j);
    RunRemembers(events[..k]);
    if Live(events[..k], j) {
      assert Ends(events, j, events[k]);
    }
  }

  /** No preparation serves two writes: between two that count as prepared another preparation is accepted, and it is
      that one whose pid the second of them carries. */
  lemma PreparationsServeOnce<Value>(events: seq<Event<Value>>, k: nat, l: nat) returns (i: nat, j: nat)
    requires k < l < |events| && AuthenticatedAt(events, k) && AuthenticatedAt(events, l)
    ensures i < k && Live(events[..k], i) && events[k].claimed == Some(events[i].pid)
    ensures k < j < l && Live(events[..l], j) && events[l].claimed == Some(events[j].pid)
  {
    AuthenticatedIff(events[..k], events[k].claimed);
    AuthenticatedIff(events[..l], events[l].claimed);
    i :| Live(events[..k], i) && Some(events[..k][i].pid) == events[k].claimed;
    j :| Live(events[..l], j) && Some(events[..l][j].pid) == events[l].claimed;
    assert events[..l][..k] == events[..k];
    if j < k { WriteEnds(events[..l], k, j); }
  }

  /** A preparation takes effect if and only if the connection may prepare and the request names a pid and a ttl; then a
      write with its pid counts as prepared from there on, and none with another. */
  lemma PreparesIff<Value>(events: seq<Event<Value>>, e: Event<Value>, pid: int)
    requires e.Prepare?
    ensures var taken := e.allowed && e.pid != 0 && e.ttl != 0;
      StateOf(Run(events + [e]), Some(pid)).TIMED_WRITE_AUTHENTICATED? <==>
        if taken then pid == e.pid else StateOf(Run(events), Some(pid)).TIMED_WRITE_AUTHENTICATED?
  {
    assert (events + [e])[..|events|] == events;
  }

  // ---------------------------------------------------------------- whole requests

  function IdsOf<Value>(items: seq<Item<Value>>): seq<Id> {
    seq(|items|, k requires 0 <= k < |items| => items[k].id)
  }

  /** What a request comes to, or nothing if it is refused for naming a characteristic twice. */
  function HandledAll<Value>(items: seq<Item<Value>>, s: Situation, state: WriteState): seq<Handled<Value>> {
    if |Requests.Inserted(IdsOf(items))| != |items| then []
    else seq(|items|, k requires 0 <= k < |items| => Handle(items[k], s, state))
  }

  function OutcomeOf<Value>(p: Prepared, e: Event<Value>): seq<Handled<Value>>
    requires e.Write?
  {
    HandledAll(e.items, e.situation, StateOf(p, e.claimed))
  }

  /** A characteristic that demands timed writes is never handed a value without a live preparation; and a request with
      a pid nobody prepared changes nothing at all. */
  lemma NothingHandedOverUnprepared<Value>(events: seq<Event<Value>>, e: Event<Value>, k: nat)
    requires e.Write?
    requires k < |OutcomeOf(Run(events), e)|
    ensures |OutcomeOf(Run(events), e)| == |e.items|
    ensures var handled := OutcomeOf(Run(events), e)[k];
      var prepared := exists j: nat :: Live(events, j) && Some(events[j].pid) == e.claimed;
      && (handled.handedOver.Some? ==> e.items[k].id in e.situation.targets)
      && (handled.handedOver.Some? && e.situation.targets[e.items[k].id].timedWrite ==> prepared)
      && (e.claimed.Some? && !prepared ==> handled == Handled(None, None, Some(INVALID_VALUE_IN_REQUEST)))
  {
    AuthenticatedIff(events, e.claimed);
  }

  /** A live preparation for the pid of a write. */
  ghost predicate IsPrepared<Value>(events: seq<Event<Value>>, e: Event<Value>)
    requires e.Write?
  {
    exists j: nat :: Live(events, j) && Some(events[j].pid) == e.claimed
  }

  /** On every run, what each item of a write comes to: its event flag is set and its value handed over exactly as far
      as the permissions go, the preparation being read off the events. */
  lemma ItemsOnEveryRun<Value>(events: seq<Event<Value>>, e: Event<Value>, k: nat)
    requires e.Write? && k < |OutcomeOf(Run(events), e)|
    ensures |OutcomeOf(Run(events), e)| == |e.items|
    ensures var (handled, item, s) := (OutcomeOf(Run(events), e)[k], e.items[k], e.situation);
      var prepared := IsPrepared(events, e);
      var heard := item.id in s.targets && (e.claimed.Some? ==> prepared)
        && (item.ev.Some? ==> MayNotify(s.targets[item.id], s.admin));
      && handled.flag == (if heard then item.ev else None)
      && handled.handedOver ==
         if heard && MayWrite(item, s.targets[item.id], s.admin) && (s.targets[item.id].timedWrite ==> prepared)
         then item.value else None
  {
    AuthenticatedIff(events, e.claimed);
    HandedOverIff(e.items[k], e.situation, StateOf(Run(events), e.claimed));
    FlagIff(e.items[k], e.situation, StateOf(Run(events), e.claimed));
  }

  /** Naming a characteristic twice has the request refused, and its preparation is used up all the same. */
  lemma DuplicatesRefusedIff<Value>(p: Prepared, e: Event<Value>)
    requires e.Write? && e.items != []
    ensures OutcomeOf(p, e) == [] <==> exists i, j :: 0 <= i < j < |e.items| && e.items[i].id == e.items[j].id
    ensures p.pid.Some? && e.claimed == p.pid ==> Step(p, e).pid == None
  {
    var ids := IdsOf(e.items);
    Requests.SizesTellDuplicates(ids);
    assert forall i :: 0 <= i < |ids| ==> ids[i] == e.items[i].id;
  }

  // ---------------------------------------------------------------- the objects

  datatype Reply = OK | BAD_REQUEST | CONNECTION_AUTHORIZATION_REQUIRED

  class HAPConnection {
    var timedWritePid: Option<int>
    var timedWriteTimeout: Option<nat>
    ghost var armed: set<nat>
    var nextTimer: nat

    ghost function View(): Prepared
      reads this
    {
      Prepared(timedWritePid, timedWriteTimeout, armed, nextTimer)
    }

    constructor ()
      ensures View() == NOTHING_PREPARED
    {
      timedWritePid, timedWriteTimeout, armed, nextTimer := None, None, {}, 0;
    }

    method HandlePrepareWrite<Value>(allowed: bool, pid: int, ttl: int) returns (reply: Reply)
      modifies this
      ensures View() == Step<Value>(old(View()), Prepare(allowed, pid, ttl))
      ensures reply ==
        if !allowed then CONNECTION_AUTHORIZATION_REQUIRED else if pid != 0 && ttl != 0 then OK else BAD_REQUEST
    {
      if !allowed {
        return CONNECTION_AUTHORIZATION_REQUIRED;
      }
      if pid != 0 && ttl != 0 {
        if timedWriteTimeout.Some? {
          armed := armed - {timedWriteTimeout.value};
        }
        timedWritePid := Some(pid);
        timedWriteTimeout := Some(nextTimer);
        armed := armed + {nextTimer};
        nextTimer := nextTimer + 1;
        return OK;
      } else {
        return BAD_REQUEST;
      }
    }

    method OnTimedWriteTimeout<Value>(timer: nat)
      requires timer in armed
      modifies this
      ensures View() == Step<Value>(old(View()), Expires(timer))
    {
      armed := armed - {timer};
      timedWritePid := None;
      timedWriteTimeout := None;
    }

    method HandleCharacteristicWrite<Value>(item: Item<Value>, s: Situation, state: WriteState)
      returns (handled: Handled<Value>)
      ensures handled == Handle(item, s, state)
    {
      var flag := None;
      if item.id !in s.targets {
        return Handled(None, None, Some(INVALID_VALUE_IN_REQUEST));
      }
      var target := s.targets[item.id];
      if state == TIMED_WRITE_REJECTED {
        return Handled(None, None, Some(INVALID_VALUE_IN_REQUEST));
      }
      if item.ev.None? && item.value.None? {
        return Handled(None, None, Some(INVALID_VALUE_IN_REQUEST));
      }
      if item.ev.Some? {
        if !target.notify {
          return Handled(None, None, Some(NOTIFICATION_NOT_SUPPORTED));
        }
        if target.adminOnlyNotify && !s.admin {
          return Handled(None, None, Some(INSUFFICIENT_PRIVILEGES));
        }
        flag := item.ev;
      }
      if item.value.Some? {
        if !target.pairedWrite {
          return Handled(flag, None, Some(READ_ONLY_CHARACTERISTIC));
        }
        if target.adminOnlyWrite && !s.admin {
          return Handled(flag, None, Some(INSUFFICIENT_PRIVILEGES));
        }
        if target.additionalAuthorization && item.verdict.Some? {
          var allowWrite := match item.verdict.value case Allows => true case Denies => false case Throws => false;
          if !allowWrite {
            return Handled(flag, None, Some(INSUFFICIENT_AUTHORIZATION));
          }
        }
        if target.timedWrite && state != TIMED_WRITE_AUTHENTICATED {
          return Handled(flag, None, Some(INVALID_VALUE_IN_REQUEST));
        }
        return Handled(flag, item.value, None);
      }
      return Handled(flag, None, Some(SUCCESS));
    }

    method HandleSetCharacteristics<Value>(pid: Option<int>, items: seq<Item<Value>>, s: Situation)
      returns (handled: seq<Handled<Value>>)
      modifies this
      ensures View() == Step(old(View()), Write(pid, items, s))
      ensures handled == OutcomeOf(old(View()), Write(pid, items, s))
    {
      var writeState := REGULAR_REQUEST;
      if pid.Some? {
        if timedWritePid == pid {
          writeState := TIMED_WRITE_AUTHENTICATED;
          if timedWriteTimeout.Some? {
            armed := armed - {timedWriteTimeout.value};
          }
          timedWritePid := None;
          timedWriteTimeout := None;
        } else {
          writeState := TIMED_WRITE_REJECTED;
        }
      }
      handled := [];
      if |Requests.Inserted(IdsOf(items))| != |items| {
        return;
      }
      ghost var acknowledged := View();
      var k := 0;
      while k < |items|
        invariant View() == acknowledged
        invariant 0 <= k == |handled| <= |items|
        invariant forall i :: 0 <= i < k ==> handled[i] == Handle(items[i], s, writeState)
      {
        var one := HandleCharacteristicWrite(items[k], s, writeState);
        handled := handled + [one];
        k := k + 1;
      }
    }
  }
}
