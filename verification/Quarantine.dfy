/** Bridged accessories with malformed permissions: which ones a bridge serves, when it warns, and when it takes another
    look at its configuration. */
module Quarantine {
  import opened Wrappers

  /** An element of a permissions array; `Other` is a hole or anything else that is not a string. */
  datatype Element = Text(text: string) | Other

  /** `props.perms` can be anything at all at run time. */
  datatype Permissions = NotAnArray | Array(elements: seq<Element>)

  type Service = seq<Permissions>

  /** Where a violation is: a service, and a characteristic of it. */
  datatype Violation = Violation(service: nat, characteristic: nat)

  /** How many accessories a bridge takes. */
  const MAX_ACCESSORIES := 149

  const VALID_PERMS: set<string> := {"pr", "pw", "ev", "aa", "tw", "hd", "wr"}

  predicate Valid(perms: Permissions) {
    perms.Array? && perms.elements != [] && forall e <- perms.elements :: e.Text? && e.text in VALID_PERMS
  }

  predicate WellFormed(services: seq<Service>) {
    forall s <- services :: forall perms <- s :: Valid(perms)
  }

  method IsValidPerms(perms: Permissions) returns (valid: bool)
    ensures valid <==> Valid(perms)
  {
    if perms.NotAnArray? || perms.elements == [] {
      return false;
    }
    var k := 0;
    while k < |perms.elements|
      invariant 0 <= k <= |perms.elements|
      invariant forall i :: 0 <= i < k ==> perms.elements[i].Text? && perms.elements[i].text in VALID_PERMS
    {
      if perms.elements[k].Other? || perms.elements[k].text !in VALID_PERMS {
        assert perms.elements[k] in perms.elements;
        return false;
      }
      k := k + 1;
    }
    valid := true;
  }

  ghost predicate IsViolation(services: seq<Service>, v: Violation) {
    v.service < |services| && v.characteristic < |services[v.service]| && !Valid(services[v.service][v.characteristic])
  }

  predicate Before(v: Violation, w: Violation) {
    v.service < w.service || (v.service == w.service && v.characteristic < w.characteristic)
  }

  /** The first violation in the order of the services and their characteristics, if there is one. */
  method FindPermsViolation(services: seq<Service>) returns (violation: Option<Violation>)
    ensures violation.None? <==> WellFormed(services)
    ensures violation.Some? ==> IsViolation(services, violation.value)
    ensures violation.Some? ==> forall v :: IsViolation(services, v) ==> !Before(v, violation.value)
  {
    var s := 0;
    while s < |services|
      invariant 0 <= s <= |services|
      invariant forall i :: 0 <= i < s ==> forall perms <- services[i] :: Valid(perms)
    {
      var c := 0;
      while c < |services[s]|
        invariant 0 <= c <= |services[s]|
        invariant forall i :: 0 <= i < c ==> Valid(services[s][i])
      {
        var valid := IsValidPerms(services[s][c]);
        if !valid {
          assert services[s][c] in services[s] && services[s] in services;
          return Some(Violation(s, c));
        }
        c := c + 1;
      }
      s := s + 1;
    }
    violation := None;
  }

  // ---------------------------------------------------------------- the bridge

  /** `fit` says that the permissions of all its characteristics are well-formed. */
  datatype Bridged = Bridged(id: nat, fit: bool, quarantined: bool)

  /** `armed` says whether a configuration update is enqueued, `hashed` which accessories the configuration listed when
      it was hashed last, `warned` the accessories of all warnings sent. */
  datatype Bridge = Bridge(accessories: seq<Bridged>, armed: bool, hashed: seq<nat>, warned: seq<nat>)

  datatype Event =
    | Change(index: nat, services: seq<Service>)        // permissions assigned behind the back of the bridge
    | ConfigurationChange(index: nat, services: seq<Service>)
    | Add(id: nat, services: seq<Service>)
    | Remove(index: nat)
    | Request                                           // of the accessory database
    | TimerFires

  function Settled(a: Bridged): Bridged {
    a.(quarantined := !a.fit)
  }

  function AllSettled(accessories: seq<Bridged>): seq<Bridged> {
    seq(|accessories|, i requires 0 <= i < |accessories| => Settled(accessories[i]))
  }

  /** The indices of the accessories that are served. */
  function Served(accessories: seq<Bridged>): seq<nat> {
    if accessories == [] then []
    else
      var n := |accessories| - 1;
      Served(accessories[..n]) + if accessories[n].fit then [n] else []
  }

  /** What is left out is exactly what is malformed, and the order stays. */
  lemma {:induction false} ServedIsTheFilter(accessories: seq<Bridged>)
    ensures var served := Served(accessories);
      && (forall i: nat :: i in served <==> i < |accessories| && accessories[i].fit)
      && (forall j, k :: 0 <= j < k < |served| ==> served[j] < served[k])
  {
    if accessories != [] {
      var n := |accessories| - 1;
      var served := Served(accessories[..n]);
      ServedIsTheFilter(accessories[..n]);
      var last := if accessories[n].fit then [n] else [];
      assert Served(accessories) == served + last;
      forall i: nat ensures i in served + last <==> i < |accessories| && accessories[i].fit {
        if i < n { assert accessories[..n][i] == accessories[i]; }
      }
      assert forall k :: 0 <= k < |served| ==> served[k] in served;
    }
  }

  /** The items whose accessory is served. */
  function Fit<T>(items: seq<T>, accessories: seq<Bridged>): seq<T>
    requires |items| == |accessories|
  {
    if items == [] then []
    else
      var n := |items| - 1;
      Fit(items[..n], accessories[..n]) + if accessories[n].fit then [items[n]] else []
  }

  lemma {:induction false} FitIsServed<T>(items: seq<T>, accessories: seq<Bridged>)
    requires |items| == |accessories|
    ensures var indices, fit := Served(accessories), Fit(items, accessories);
      |fit| == |indices| && forall k :: 0 <= k < |fit| ==> indices[k] < |items| && fit[k] == items[indices[k]]
  {
    if items != [] {
      FitIsServed(items[..|items| - 1], accessories[..|items| - 1]);
    }
  }

  function NewlyMalformed(accessories: seq<Bridged>): seq<nat> {
    if accessories == [] then []
    else
      var a := accessories[|accessories| - 1];
      NewlyMalformed(accessories[..|accessories| - 1]) + if !a.fit && !a.quarantined then [a.id] else []
  }

  /** One pass over the bridged accessories, as both builders make it. */
  function Built(b: Bridge): Bridge {
    b.(accessories := AllSettled(b.accessories),
       armed := b.armed || b.accessories != AllSettled(b.accessories),
       warned := b.warned + NewlyMalformed(b.accessories))
  }

  function IdsOf(accessories: seq<Bridged>): seq<nat> {
    seq(|accessories|, i requires 0 <= i < |accessories| => accessories[i].id)
  }

  function IdsServed(accessories: seq<Bridged>): seq<nat> {
    Fit(IdsOf(accessories), accessories)
  }

  function IdsNotQuarantined(accessories: seq<Bridged>): seq<nat> {
    if accessories == [] then []
    else
      var a := accessories[|accessories| - 1];
      IdsNotQuarantined(accessories[..|accessories| - 1]) + if a.quarantined then [] else [a.id]
  }

  predicate Bridges(b: Bridge, id: nat) {
    exists a <- b.accessories :: a.id == id
  }

  function Step(b: Bridge, e: Event): Bridge {
    match e
    case Change(i, services) =>
      if i >= |b.accessories| then b
      else b.(accessories := b.accessories[i := b.accessories[i].(fit := WellFormed(services))])
    case ConfigurationChange(i, services) =>
      if i >= |b.accessories| then b
      else b.(accessories := b.accessories[i := b.accessories[i].(fit := WellFormed(services))], armed := true)
    case Add(id, services) =>
      if Bridges(b, id) || |b.accessories| >= MAX_ACCESSORIES then b
      else b.(accessories := b.accessories + [Bridged(id, WellFormed(services), false)], armed := true)
    case Remove(i) =>
      if i < |b.accessories| then b.(accessories := b.accessories[..i] + b.accessories[i + 1..], armed := true) else b
    case Request => Built(b)
    case TimerFires =>
      if b.armed then Built(b.(armed := false)).(hashed := IdsServed(b.accessories)) else b
  }

  function Run(b: Bridge, events: seq<Event>): Bridge {
    if events == [] then b else Step(Run(b, events[..|events| - 1]), events[|events| - 1])
  }

  /** No two bridged accessories share an id, and there are at most 149 of them. */
  ghost predicate Orderly(b: Bridge) {
    && |b.accessories| <= 149
    && forall i, j :: 0 <= i < j < |b.accessories| ==> b.accessories[i].id != b.accessories[j].id
  }

  /** On every run this stays so, whatever is added. */
  lemma {:induction false} BridgesStayOrderly(b: Bridge, events: seq<Event>)
    requires Orderly(b)
    ensures Orderly(Run(b, events))
  {
    if events != [] {
      BridgesStayOrderly(b, events[..|events| - 1]);
      StepStaysOrderly(Run(b, events[..|events| - 1]), events[|events| - 1]);
    }
  }

  lemma StepStaysOrderly(b: Bridge, e: Event)
    requires Orderly(b)
    ensures Orderly(Step(b, e))
  {
  }

  /** An accessory is added at the end exactly when there is room and its id is new; removing one and changing one leave
      the others in their order. Each of these enqueues an update, except for a change that is not announced. */
  lemma ModelChanges(b: Bridge, e: Event)
    ensures var b' := Step(b, e);
      match e
      case Add(id, services) =>
        if |b.accessories| < 149 && forall a <- b.accessories :: a.id != id then
          b'.accessories == b.accessories + [Bridged(id, WellFormed(services), false)] && b'.armed
        else b' == b
      case Remove(i) =>
        if i < |b.accessories| then
          && |b'.accessories| == |b.accessories| - 1 && b'.armed
          && forall k :: 0 <= k < |b'.accessories| ==>
               b'.accessories[k] == b.accessories[if k < i then k else k + 1]
        else b' == b
      case Change(i, services) => ChangedAt(b, b', i, services) && b'.armed == b.armed
      case ConfigurationChange(i, services) => ChangedAt(b, b', i, services) && (i < |b.accessories| ==> b'.armed)
      case TimerFires => if b.armed then b'.hashed == IdsServed(b.accessories) else b' == b
      case Request => b'.hashed == b.hashed
  {
  }

  ghost predicate ChangedAt(b: Bridge, b': Bridge, i: nat, services: seq<Service>) {
    && |b'.accessories| == |b.accessories|
    && forall k :: 0 <= k < |b.accessories| ==>
         b'.accessories[k] == if k == i then b.accessories[k].(fit := WellFormed(services)) else b.accessories[k]
  }

  /** What the loop has done to the timer, the warnings and the list after `k` rounds. */
  ghost function Rounds<T>(items: seq<T>, before: seq<Bridged>, k: nat, b: Bridge): (bool, seq<nat>, seq<T>)
    requires k <= |items| == |before|
  {
    if k == 0 then (b.armed, b.warned, [])
    else
      var (enqueued, warned, served) := Rounds(items, before, k - 1, b);
      var a := before[k - 1];
      (enqueued || a.fit == a.quarantined,
       warned + (if !a.fit && !a.quarantined then [a.id] else []),
       served + if a.fit then [items[k - 1]] else [])
  }

  lemma {:induction false} AllRounds<T>(items: seq<T>, before: seq<Bridged>, k: nat, b: Bridge)
    requires k <= |items| == |before|
    ensures Rounds(items, before, k, b)
      == (b.armed || before[..k] != AllSettled(before[..k]), b.warned + NewlyMalformed(before[..k]),
          Fit(items[..k], before[..k]))
  {
    if k == 0 {
      assert b.warned + [] == b.warned;
    } else {
      AllRounds(items, before, k - 1, b);
      var earlier, now := before[..k - 1], before[..k];
      assert now[..k - 1] == earlier && items[..k][..k - 1] == items[..k - 1];
      assert now == earlier + [before[k - 1]];
      assert AllSettled(now) == AllSettled(earlier) + [Settled(before[k - 1])];
      assert AllSettled(now)[..k - 1] == AllSettled(earlier);
      var a := before[k - 1];
      assert (b.warned + NewlyMalformed(earlier)) + (if !a.fit && !a.quarantined then [a.id] else [])
        == b.warned + NewlyMalformed(now);
      assert Fit(items[..k], now) == Fit(items[..k - 1], earlier) + if a.fit then [items[k - 1]] else [];
    }
  }

  lemma RoundsTogether<T>(items: seq<T>, before: seq<Bridged>, b: Bridge)
    requires |items| == |before|
    ensures Rounds(items, before, |items|, b)
      == (b.armed || before != AllSettled(before), b.warned + NewlyMalformed(before), Fit(items, before))
  {
    AllRounds(items, before, |items|, b);
    assert before[..|items|] == before && items[..|items|] == items;
  }

  // ---------------------------------------------------------------- convergence

  lemma {:induction false} SettledAgain(accessories: seq<Bridged>)
    ensures AllSettled(AllSettled(accessories)) == AllSettled(accessories)
    ensures NewlyMalformed(AllSettled(accessories)) == []
    ensures IdsServed(AllSettled(accessories)) == IdsServed(accessories) == IdsNotQuarantined(AllSettled(accessories))
    ensures Served(AllSettled(accessories)) == Served(accessories)
  {
    if accessories != [] {
      var n := |accessories| - 1;
      SettledAgain(accessories[..n]);
      assert AllSettled(accessories)[..n] == AllSettled(accessories[..n]);
      assert IdsOf(accessories)[..n] == IdsOf(accessories[..n]);
      assert IdsOf(AllSettled(accessories)) == IdsOf(accessories)
        && IdsOf(AllSettled(accessories[..n])) == IdsOf(accessories[..n]);
    }
  }

  /** After a pass every flag tells whether the accessory is malformed, and another pass over the same model neither
      warns nor enqueues anything, nor does it serve anything else. */
  lemma SecondPassIsSilent(b: Bridge)
    ensures forall i :: 0 <= i < |b.accessories| ==> (Built(b).accessories[i].quarantined <==> !b.accessories[i].fit)
    ensures Built(Built(b)) == Built(b)
    ensures Served(Built(b).accessories) == Served(b.accessories)
  {
    SettledAgain(b.accessories);
  }

  predicate KeepsModel(e: Event) {
    e.Request? || e.TimerFires?
  }

  /** How many more times the timer can fire while the model stays as it is. */
  function Pending(b: Bridge): nat {
    (if b.armed then 1 else 0) + if b.accessories != AllSettled(b.accessories) then 1 else 0
  }

  function Firings(b: Bridge, events: seq<Event>): nat {
    if events == [] then 0
    else
      var earlier := events[..|events| - 1];
      Firings(b, earlier) + if events[|events| - 1].TimerFires? && Run(b, earlier).armed then 1 else 0
  }

  lemma PendingShrinks(b: Bridge, e: Event)
    requires KeepsModel(e)
    ensures Pending(Step(b, e)) + (if e.TimerFires? && b.armed then 1 else 0) <= Pending(b)
  {
  }

  /** While the model stays as it is the update fires twice at most, however many requests come in between. */
  lemma {:induction false} UpdatesTerminate(b: Bridge, events: seq<Event>)
    requires forall e <- events :: KeepsModel(e)
    ensures Firings(b, events) + Pending(Run(b, events)) <= Pending(b) <= 2
  {
    if events != [] {
      UpdatesTerminate(b, events[..|events| - 1]);
      PendingShrinks(Run(b, events[..|events| - 1]), events[|events| - 1]);
    }
  }

  /** Each malformed accessory is warned about once, on the first pass, and never again. */
  lemma {:induction false} WarnedOnce(b: Bridge, events: seq<Event>)
    requires forall e <- events :: KeepsModel(e)
    ensures var r := Run(b, events);
      (r.accessories == b.accessories && r.warned == b.warned)
      || (r.accessories == AllSettled(b.accessories) && r.warned == b.warned + NewlyMalformed(b.accessories))
  {
    if events != [] {
      WarnedOnce(b, events[..|events| - 1]);
      SettledAgain(b.accessories);
      var r := Run(b, events[..|events| - 1]);
      assert r.warned + [] == r.warned;
      assert KeepsModel(events[|events| - 1]);
    }
  }

  // ---------------------------------------------------------------- what is hashed is what is served

  ghost predicate HashedOrEnqueued(b: Bridge) {
    b.armed || b.hashed == IdsNotQuarantined(b.accessories)
  }

  lemma {:induction false} ChangedFitness(accessories: seq<Bridged>, i: nat, fit: bool)
    requires i < |accessories|
    ensures IdsNotQuarantined(accessories[i := accessories[i].(fit := fit)]) == IdsNotQuarantined(accessories)
    decreases |accessories|
  {
    var n := |accessories| - 1;
    var changed := accessories[i := accessories[i].(fit := fit)];
    if i < n {
      ChangedFitness(accessories[..n], i, fit);
      assert changed[..n] == accessories[..n][i := accessories[i].(fit := fit)];
    } else {
      assert changed[..n] == accessories[..n];
    }
  }

  lemma StepHashes(b: Bridge, e: Event)
    requires HashedOrEnqueued(b)
    ensures HashedOrEnqueued(Step(b, e))
  {
    SettledAgain(b.accessories);
    match e
    case Change(i, services) => if i < |b.accessories| { ChangedFitness(b.accessories, i, WellFormed(services)); }
    case _ =>
  }

  /** Whatever a request hands out, the configuration hashed last lists the same accessories, or an update that will
      hash them is enqueued. */
  lemma {:induction false} HandedOutIsHashed(b: Bridge, events: seq<Event>)
    requires HashedOrEnqueued(b)
    ensures HashedOrEnqueued(Run(b, events))
    ensures var r := Run(b, events); var handedOut := IdsServed(r.accessories);
      Step(r, Request).armed || Step(r, Request).hashed == handedOut
  {
    if events != [] {
      HandedOutIsHashed(b, events[..|events| - 1]);
      StepHashes(Run(b, events[..|events| - 1]), events[|events| - 1]);
    }
    var r := Run(b, events);
    StepHashes(r, Request);
    SettledAgain(r.accessories);
  }

  // ---------------------------------------------------------------- the objects

  class Accessory {
    const id: nat
    var services: seq<Service>
    var permsQuarantined: bool
    var bridgedAccessories: seq<Accessory>
    var updateEnqueued: bool
    ghost var warned: seq<nat>
    ghost var members: set<Accessory>   // of the bridged accessories

    ghost function View(): Bridged
      reads this
    {
      Bridged(id, WellFormed(services), permsQuarantined)
    }

    ghost predicate IsBridge()
      reads this
    {
      && this !in members
      && (forall i :: 0 <= i < |bridgedAccessories| ==> bridgedAccessories[i] in members)
      && (forall i, j :: 0 <= i < j < |bridgedAccessories| ==> bridgedAccessories[i] != bridgedAccessories[j])
    }

    ghost function Views(): seq<Bridged>
      requires IsBridge()
      reads this, members
    {
      seq(|bridgedAccessories|,
          i requires IsBridge() && 0 <= i < |bridgedAccessories| reads this, members => bridgedAccessories[i].View())
    }

    constructor (id: nat, services: seq<Service>)
      ensures View() == Bridged(id, WellFormed(services), false) && this.services == services
      ensures IsBridge() && bridgedAccessories == [] && !updateEnqueued && warned == []
    {
      this.id, this.services, permsQuarantined := id, services, false;
      bridgedAccessories, updateEnqueued, warned, members := [], false, [], {};
    }

    method EnqueueConfigurationUpdate()
      modifies this`updateEnqueued
      ensures updateEnqueued
    {
      if updateEnqueued {
        return;
      }
      updateEnqueued := true;
    }

    /** One round of the loop over the bridged accessories. */
    method Inspect(accessory: Accessory, served: seq<Accessory>) returns (servedNext: seq<Accessory>)
      requires accessory != this
      modifies this`updateEnqueued, this`warned, accessory`permsQuarantined
      ensures accessory.View() == Settled(old(accessory.View()))
      ensures var a := old(accessory.View());
        && (updateEnqueued <==> old(updateEnqueued) || a.fit == a.quarantined)
        && warned == old(warned) + (if !a.fit && !a.quarantined then [a.id] else [])
        && servedNext == served + if a.fit then [accessory] else []
    {
      var violation := FindPermsViolation(accessory.services);
      if violation.Some? {
        if !accessory.permsQuarantined {
          accessory.permsQuarantined := true;
          warned := warned + [accessory.id];
          EnqueueConfigurationUpdate();
        }
        return served;
      }
      if accessory.permsQuarantined {
        accessory.permsQuarantined := false;
        EnqueueConfigurationUpdate();
      }
      servedNext := served + [accessory];
    }

    /** How far the loop has come. */
    ghost predicate InspectedUpTo(before: seq<Bridged>, k: nat)
      requires IsBridge()
      reads this, members
    {
      && k <= |bridgedAccessories| == |before|
      && (forall i :: 0 <= i < k ==> bridgedAccessories[i].View() == Settled(before[i]))
      && (forall i :: k <= i < |bridgedAccessories| ==> bridgedAccessories[i].View() == before[i])
    }

    /** The loop, against the rounds it is to make over what it finds. */
    method InspectAll(ghost before: seq<Bridged>, ghost b: Bridge) returns (served: seq<Accessory>)
      requires IsBridge() && InspectedUpTo(before, 0)
      requires b.armed == updateEnqueued && b.warned == warned
      modifies this`updateEnqueued, this`warned, members`permsQuarantined
      ensures IsBridge() && InspectedUpTo(before, |before|)
      ensures (updateEnqueued, warned, served) == Rounds(bridgedAccessories, before, |before|, b)
    {
      served := [];
      var k := 0;
      while k < |bridgedAccessories|
        invariant IsBridge()
        invariant InspectedUpTo(before, k)
        invariant (updateEnqueued, warned, served) == Rounds(bridgedAccessories, before, k, b)
      {
        assert bridgedAccessories[k].View() == before[k];
        served := Inspect(bridgedAccessories[k], served);
        k := k + 1;
      }
    }

    method ServedBridgedAccessories() returns (served: seq<Accessory>)
      requires IsBridge()
      modifies this`updateEnqueued, this`warned, members`permsQuarantined
      ensures IsBridge() && Views() == AllSettled(old(Views()))
      ensures updateEnqueued <==> old(updateEnqueued) || old(Views()) != AllSettled(old(Views()))
      ensures warned == old(warned) + NewlyMalformed(old(Views()))
      ensures served == Fit(bridgedAccessories, old(Views()))
    {
      ghost var before := Views();
      ghost var start := Bridge(before, updateEnqueued, [], warned);
      served := InspectAll(before, start);
      RoundsTogether(bridgedAccessories, before, start);
    }
  }
}
