/** Fanning a request out and answering it once: the characteristics still missing, the entries collected so far and
    one timer with two stages. Reads and writes of the accessory and the listing of a service work this way; for the
    listing every missing id is resolvable. */
module RequestAggregator {
  datatype Entry<Id, Data> = Value(id: Id, data: Data) | TimedOut(id: Id)

  datatype Warning<Id> = Slow(id: Id) | Unanswered(id: Id)

  /** The variable `timeout`: the handle of the first or of the second timer, or undefined. */
  datatype Timer = FirstArmed | SecondArmed | Undefined

  datatype FanOut<Id, Data> = FanOut(
    pending: set<Id>,                      // the handlers that have not completed
    missing: seq<Id>,                      // a set in insertion order
    collected: seq<Entry<Id, Data>>,
    timer: Timer,
    answers: seq<seq<Entry<Id, Data>>>,    // one element for every call of the callback
    warnings: seq<Warning<Id>>)

  /** A timer finds the accessory and the characteristic of some ids only. */
  datatype Event<Id, Data> = Completes(id: Id, data: Data) | TimerFires(resolvable: set<Id>)

  // ---------------------------------------------------------------- sets in insertion order

  ghost predicate Distinct<T>(s: seq<T>) {
    forall i, j :: 0 <= i < j < |s| ==> s[i] != s[j]
  }

  /** What a set built from `s` iterates over. */
  function Inserted<T(==)>(s: seq<T>): seq<T> {
    if s == [] then []
    else
      var r := Inserted(s[..|s| - 1]);
      if s[|s| - 1] in r then r else r + [s[|s| - 1]]
  }

  /** Comparing sizes finds exactly the requests with duplicates. */
  lemma {:induction false} SizesTellDuplicates<T>(s: seq<T>)
    ensures |Inserted(s)| == |s| <==> Distinct(s)
    ensures |Inserted(s)| <= |s|
    ensures forall x :: x in Inserted(s) <==> x in s
    ensures Distinct(s) ==> Inserted(s) == s
  {
    if s != [] {
      var r, x := s[..|s| - 1], s[|s| - 1];
      SizesTellDuplicates(r);
      assert s == r + [x];
      if x in r {
        var k :| 0 <= k < |r| && r[k] == x;
        assert s[k] == s[|s| - 1];
      } else if Distinct(r) {
        forall i, j | 0 <= i < j < |s| ensures s[i] != s[j] {
          assert s[i] == r[i];
          if j < |r| { assert s[j] == r[j]; }
        }
      } else {
        var i, j :| 0 <= i < j < |r| && r[i] == r[j];
        assert s[i] == s[j];
      }
    }
  }

  function Excluding<T(==)>(s: seq<T>, gone: set<T>): seq<T> {
    if s == [] then []
    else Excluding(s[..|s| - 1], gone) + if s[|s| - 1] in gone then [] else [s[|s| - 1]]
  }

  lemma {:induction false} ExcludingMembers<T>(s: seq<T>, gone: set<T>)
    ensures forall x :: x in Excluding(s, gone) <==> x in s && x !in gone
    ensures Distinct(s) ==> Distinct(Excluding(s, gone))
  {
    if s != [] {
      var r, x := s[..|s| - 1], s[|s| - 1];
      ExcludingMembers(r, gone);
      assert s == r + [x];
      if Distinct(s) {
        assert x !in r;
        var e := Excluding(s, gone);
        forall i, j | 0 <= i < j < |e| ensures e[i] != e[j] {
          assert e[i] == Excluding(r, gone)[i];
          if j < |Excluding(r, gone)| { assert e[j] == Excluding(r, gone)[j]; }
        }
      }
    }
  }

  lemma {:induction false} ExcludingMore<T>(s: seq<T>, gone: set<T>, x: T)
    ensures Excluding(Excluding(s, gone), {x}) == Excluding(s, gone + {x})
  {
    if s != [] {
      var r, y := s[..|s| - 1], s[|s| - 1];
      ExcludingMore(r, gone, x);
      if y in gone {
        assert Excluding(s, gone) == Excluding(r, gone);
      } else {
        assert (Excluding(r, gone) + [y])[..|Excluding(r, gone)|] == Excluding(r, gone);
      }
    }
  }

  lemma {:induction false} ExcludingNothing<T>(s: seq<T>)
    ensures Excluding(s, {}) == s
  {
    if s != [] {
      ExcludingNothing(s[..|s| - 1]);
      assert s == s[..|s| - 1] + [s[|s| - 1]];
    }
  }

  // ---------------------------------------------------------------- the machine

  function TimeoutsFor<Id(==), Data>(missing: seq<Id>, resolvable: set<Id>): seq<Entry<Id, Data>> {
    if missing == [] then []
    else
      TimeoutsFor(missing[..|missing| - 1], resolvable)
      + if missing[|missing| - 1] in resolvable then [TimedOut(missing[|missing| - 1])] else []
  }

  function WarningsFor<Id(==)>(missing: seq<Id>, resolvable: set<Id>, final: bool): seq<Warning<Id>> {
    if missing == [] then []
    else
      WarningsFor(missing[..|missing| - 1], resolvable, final)
      + if missing[|missing| - 1] !in resolvable then []
        else if final then [Unanswered(missing[|missing| - 1])]
        else [Slow(missing[|missing| - 1])]
  }

  function Started<Id, Data>(ids: seq<Id>): FanOut<Id, Data> {
    FanOut((set id | id in ids), ids, [], FirstArmed, [], [])
  }

  function Completed<Id, Data>(f: FanOut<Id, Data>, id: Id, data: Data): FanOut<Id, Data> {
    if f.timer.Undefined? then f
    else
      var g := f.(missing := Excluding(f.missing, {id}), collected := f.collected + [Value(id, data)]);
      if g.missing == [] then g.(timer := Undefined, answers := g.answers + [g.collected]) else g
  }

  function Fired<Id, Data>(f: FanOut<Id, Data>, resolvable: set<Id>): FanOut<Id, Data> {
    match f.timer
    case FirstArmed => f.(timer := SecondArmed, warnings := f.warnings + WarningsFor(f.missing, resolvable, false))
    case SecondArmed =>
      var collected := f.collected + TimeoutsFor(f.missing, resolvable);
      f.(timer := Undefined, missing := [], collected := collected, answers := f.answers + [collected],
         warnings := f.warnings + WarningsFor(f.missing, resolvable, true))
    case Undefined => f
  }

  function Step<Id, Data>(f: FanOut<Id, Data>, e: Event<Id, Data>): FanOut<Id, Data> {
    match e
    case Completes(id, data) => if id in f.pending then Completed(f.(pending := f.pending - {id}), id, data) else f
    case TimerFires(resolvable) => Fired(f, resolvable)
  }

  function Run<Id, Data>(ids: seq<Id>, events: seq<Event<Id, Data>>): FanOut<Id, Data> {
    if events == [] then Started(ids) else Step(Run(ids, events[..|events| - 1]), events[|events| - 1])
  }

  // ---------------------------------------------------------------- the answer, read off the events alone

  /** The first completion of every requested id, in the order in which they come. */
  function Completions<Id, Data>(ids: seq<Id>, events: seq<Event<Id, Data>>): seq<Entry<Id, Data>> {
    if events == [] then []
    else
      var earlier := Completions(ids, events[..|events| - 1]);
      match events[|events| - 1]
      case Completes(id, data) => if id in ids && id !in Ids(earlier) then earlier + [Value(id, data)] else earlier
      case TimerFires(_) => earlier
  }

  function Ids<Id, Data>(entries: seq<Entry<Id, Data>>): set<Id> {
    set k | 0 <= k < |entries| :: entries[k].id
  }

  function Firings<Id, Data>(events: seq<Event<Id, Data>>): nat {
    if events == [] then 0 else Firings(events[..|events| - 1]) + if events[|events| - 1].TimerFires? then 1 else 0
  }

  ghost predicate AllCompleted<Id, Data>(ids: seq<Id>, completions: seq<Entry<Id, Data>>) {
    ids != [] && forall id <- ids :: id in Ids(completions)
  }

  /** Every requested id has completed, or both timers have had their time. A request for nothing waits for the
      timers. */
  ghost predicate Decided<Id, Data>(ids: seq<Id>, events: seq<Event<Id, Data>>) {
    AllCompleted(ids, Completions(ids, events)) || Firings(events) >= 2
  }

  /** How many events it took to decide. */
  ghost function Deciding<Id, Data>(ids: seq<Id>, events: seq<Event<Id, Data>>): (n: nat)
    requires Decided(ids, events)
    ensures 0 < n <= |events| && Decided(ids, events[..n]) && !Decided(ids, events[..n - 1])
  {
    assert events != [] by { if ids != [] { assert ids[0] in ids; } }
    var earlier := events[..|events| - 1];
    if Decided(ids, earlier) then
      var n := Deciding(ids, earlier);
      assert earlier[..n] == events[..n] && earlier[..n - 1] == events[..n - 1];
      n
    else
      assert events[..|events|] == events;
      |events|
  }

  ghost function Answer<Id, Data>(ids: seq<Id>, events: seq<Event<Id, Data>>): seq<Entry<Id, Data>>
    requires Decided(ids, events)
  {
    var n := Deciding(ids, events);
    WithTimeouts(ids, Completions(ids, events[..n]), Resolvable(events[n - 1]))
  }

  /** The entries collected, and a timeout for every other id that can be resolved. */
  function WithTimeouts<Id, Data>(ids: seq<Id>, completions: seq<Entry<Id, Data>>,
                                  resolvable: set<Id>): seq<Entry<Id, Data>>
  {
    completions + TimeoutsFor(Excluding(ids, Ids(completions)), resolvable)
  }

  function Resolvable<Id, Data>(e: Event<Id, Data>): set<Id> {
    if e.TimerFires? then e.resolvable else {}
  }

  // ---------------------------------------------------------------- every run gives that answer, once

  ghost predicate Waiting<Id, Data>(ids: seq<Id>, events: seq<Event<Id, Data>>, f: FanOut<Id, Data>) {
    && f.timer == (if Firings(events) == 0 then FirstArmed else SecondArmed)
    && f.collected == Completions(ids, events)
    && f.missing == Excluding(ids, Ids(f.collected))
    && f.answers == []
  }

  ghost predicate Answered<Id, Data>(ids: seq<Id>, events: seq<Event<Id, Data>>, f: FanOut<Id, Data>)
    requires Decided(ids, events)
  {
    f.timer.Undefined? && f.missing == [] && f.collected == Answer(ids, events) && f.answers == [f.collected]
  }

  ghost predicate Tracks<Id, Data>(ids: seq<Id>, events: seq<Event<Id, Data>>, f: FanOut<Id, Data>) {
    && f.pending == (set id | id in ids && id !in Ids(Completions(ids, events)))
    && if Decided(ids, events) then Answered(ids, events, f) else Waiting(ids, events, f)
  }

  lemma IdsGrow<Id, Data>(entries: seq<Entry<Id, Data>>, e: Entry<Id, Data>)
    ensures Ids(entries + [e]) == Ids(entries) + {e.id}
  {
    forall id | id in Ids(entries) + {e.id} ensures id in Ids(entries + [e]) {
      if id == e.id {
        assert (entries + [e])[|entries|] == e;
      } else {
        var k :| 0 <= k < |entries| && entries[k].id == id;
        assert (entries + [e])[k] == entries[k];
      }
    }
  }

  lemma DecidedStays<Id, Data>(ids: seq<Id>, events: seq<Event<Id, Data>>, e: Event<Id, Data>)
    requires Decided(ids, events)
    ensures Decided(ids, events + [e]) && Answer(ids, events + [e]) == Answer(ids, events)
  {
    assert (events + [e])[..|events|] == events;
    var before := Completions(ids, events);
    if e.Completes? { IdsGrow(before, Value(e.id, e.data)); }
    assert Ids(before) <= Ids(Completions(ids, events + [e]));
    var n := Deciding(ids, events);
    assert Deciding(ids, events + [e]) == n;
    assert (events + [e])[..n] == events[..n];
  }

  lemma DecidedNow<Id, Data>(ids: seq<Id>, events: seq<Event<Id, Data>>, e: Event<Id, Data>)
    requires !Decided(ids, events) && Decided(ids, events + [e])
    ensures Answer(ids, events + [e]) == WithTimeouts(ids, Completions(ids, events + [e]), Resolvable(e))
  {
    var all := events + [e];
    assert all[..|all| - 1] == events && all[..|all|] == all;
    assert Deciding(ids, all) == |all|;
  }

  lemma CompletionAdds<Id, Data>(ids: seq<Id>, events: seq<Event<Id, Data>>, id: Id, data: Data)
    requires id in ids && id !in Ids(Completions(ids, events))
    ensures var c := Completions(ids, events + [Completes(id, data)]);
      c == Completions(ids, events) + [Value(id, data)] && Ids(c) == Ids(Completions(ids, events)) + {id}
    ensures Firings(events + [Completes(id, data)]) == Firings(events)
  {
    assert (events + [Completes(id, data)])[..|events|] == events;
    IdsGrow(Completions(ids, events), Value(id, data));
  }

  lemma NoneMissing<Id, Data>(ids: seq<Id>, completions: seq<Entry<Id, Data>>)
    requires ids != []
    ensures AllCompleted(ids, completions) <==> Excluding(ids, Ids(completions)) == []
  {
    var missing := Excluding(ids, Ids(completions));
    ExcludingMembers(ids, Ids(completions));
    if missing == [] {
      assert forall id <- ids :: id in Ids(completions) || id in missing;
    } else {
      assert missing[0] in missing;
    }
  }

  lemma CompletionTracked<Id, Data>(ids: seq<Id>, events: seq<Event<Id, Data>>, f: FanOut<Id, Data>, id: Id, data: Data)
    requires !Decided(ids, events) && Waiting(ids, events, f) && id in ids && id !in Ids(f.collected)
    ensures var e := Completes(id, data);
      if Decided(ids, events + [e]) then Answered(ids, events + [e], Completed(f, id, data))
      else Waiting(ids, events + [e], Completed(f, id, data))
  {
    var e := Completes(id, data);
    CompletionAdds(ids, events, id, data);
    ExcludingMore(ids, Ids(f.collected), id);
    NoneMissing(ids, Completions(ids, events + [e]));
    if Completed(f, id, data).missing == [] {
      DecidedNow(ids, events, e);
      var none: seq<Entry<Id, Data>> := TimeoutsFor([], {});
      assert none == [] && Completed(f, id, data).collected + none == Completed(f, id, data).collected;
    }
  }

  lemma FiringTracked<Id, Data>(ids: seq<Id>, events: seq<Event<Id, Data>>, f: FanOut<Id, Data>, resolvable: set<Id>)
    requires !Decided(ids, events) && Tracks(ids, events, f)
    ensures Tracks(ids, events + [TimerFires(resolvable)], Step(f, TimerFires(resolvable)))
  {
    var e := TimerFires(resolvable);
    var all := events + [e];
    assert all[..|events|] == events;
    assert Completions(ids, all) == Completions(ids, events);
    if Decided(ids, all) { DecidedNow(ids, events, e); }
  }

  lemma StepTracked<Id, Data>(ids: seq<Id>, events: seq<Event<Id, Data>>, f: FanOut<Id, Data>, e: Event<Id, Data>)
    requires Tracks(ids, events, f)
    ensures Tracks(ids, events + [e], Step(f, e))
  {
    var all := events + [e];
    assert all[..|events|] == events;
    if Decided(ids, events) {
      DecidedStays(ids, events, e);
      if e.Completes? { IdsGrow(Completions(ids, events), Value(e.id, e.data)); }
    } else {
      match e
      case Completes(id, data) =>
        if id in f.pending {
          CompletionTracked(ids, events, f.(pending := f.pending - {id}), id, data);
          CompletionAdds(ids, events, id, data);
        }
        else { assert Completions(ids, all) == Completions(ids, events); }
      case TimerFires(resolvable) => FiringTracked(ids, events, f, resolvable);
    }
  }

  lemma StartTracked<Id, Data>(ids: seq<Id>)
    ensures Tracks<Id, Data>(ids, [], Started(ids))
  {
    assert Ids(Completions<Id, Data>(ids, [])) == {};
    ExcludingNothing(ids);
    if ids != [] { assert ids[0] in ids; }
  }

  lemma {:induction false} RunTracked<Id, Data>(ids: seq<Id>, events: seq<Event<Id, Data>>)
    ensures Tracks(ids, events, Run(ids, events))
  {
    if events == [] {
      StartTracked<Id, Data>(ids);
    } else {
      var earlier, e := events[..|events| - 1], events[|events| - 1];
      assert earlier + [e] == events;
      assert Run(ids, events) == Step(Run(ids, earlier), e);
      assert Tracks(ids, earlier + [e], Step(Run(ids, earlier), e)) by {
        RunTracked(ids, earlier);
        StepTracked(ids, earlier, Run(ids, earlier), e);
      }
    }
  }

  /** A request is answered exactly once, and exactly when every handler has completed or the second timer fires; the
      answer is the one the events call for. */
  lemma AnsweredExactlyOnce<Id, Data>(ids: seq<Id>, events: seq<Event<Id, Data>>)
    ensures Run(ids, events).answers == if Decided(ids, events) then [Answer(ids, events)] else []
  {
    RunTracked(ids, events);
  }

  /** A warning of the first or of the second timer. */
  function WarningOf<Id>(id: Id, final: bool): Warning<Id> {
    if final then Unanswered(id) else Slow(id)
  }

  lemma {:induction false} WarningsForIff<Id>(missing: seq<Id>, resolvable: set<Id>, final: bool, w: Warning<Id>)
    ensures w in WarningsFor(missing, resolvable, final) <==>
      exists id :: id in missing && id in resolvable && w == WarningOf(id, final)
  {
    if missing != [] {
      var (before, last) := (missing[..|missing| - 1], missing[|missing| - 1]);
      WarningsForIff(before, resolvable, final, w);
      assert missing == before + [last];
      if last in resolvable && w == WarningOf(last, final) { assert last in missing; }
    }
  }

  lemma {:induction false} WarningsForOnce<Id>(missing: seq<Id>, resolvable: set<Id>, final: bool)
    requires Distinct(missing)
    ensures Distinct(WarningsFor(missing, resolvable, final))
  {
    if missing != [] {
      var (before, last) := (missing[..|missing| - 1], missing[|missing| - 1]);
      WarningsForOnce(before, resolvable, final);
      WarningsForIff(before, resolvable, final, WarningOf(last, final));
    }
  }

  /** Which ids an undecided request still waits for. */
  ghost predicate Outstanding<Id, Data>(ids: seq<Id>, events: seq<Event<Id, Data>>, id: Id) {
    id in ids && id !in Ids(Completions(ids, events))
  }

  /** On every run, a timer warns about exactly the ids that are outstanding and can be resolved, and says which of the
      two timers it was; nothing else warns, and nothing does once the request is answered. */
  lemma WarningsIff<Id, Data>(ids: seq<Id>, events: seq<Event<Id, Data>>, e: Event<Id, Data>, w: Warning<Id>)
    ensures var (before, after) := (Run(ids, events).warnings, Run(ids, events + [e]).warnings);
      && before <= after
      && (w in after[|before|..] <==>
            && e.TimerFires? && !Decided(ids, events)
            && exists id ::
              Outstanding(ids, events, id) && id in e.resolvable && w == WarningOf(id, Firings(events) == 1))
      && (Distinct(ids) ==> Distinct(after[|before|..]))
  {
    assert (events + [e])[..|events|] == events;
    RunTracked(ids, events);
    var f := Run(ids, events);
    if e.TimerFires? && !Decided(ids, events) {
      ExcludingMembers(ids, Ids(f.collected));
      var final := Firings(events) == 1;
      WarningsForIff(f.missing, e.resolvable, final, w);
      assert Run(ids, events + [e]).warnings == f.warnings + WarningsFor(f.missing, e.resolvable, final);
      if Distinct(ids) { WarningsForOnce(f.missing, e.resolvable, final); }
    }
  }

  ghost predicate DistinctIds<Id, Data>(entries: seq<Entry<Id, Data>>) {
    forall i, j :: 0 <= i < j < |entries| ==> entries[i].id != entries[j].id
  }

  lemma DistinctTogether<Id, Data>(a: seq<Entry<Id, Data>>, b: seq<Entry<Id, Data>>)
    requires DistinctIds(a) && DistinctIds(b) && Ids(a) !! Ids(b)
    ensures DistinctIds(a + b)
  {
    var c := a + b;
    forall i, j | 0 <= i < j < |c| ensures c[i].id != c[j].id {
      if i < |a| <= j {
        assert a[i].id in Ids(a) && b[j - |a|].id in Ids(b);
      }
    }
  }

  lemma {:induction false} CompletionsFromEvents<Id, Data>(ids: seq<Id>, events: seq<Event<Id, Data>>)
    ensures var c := Completions(ids, events);
      && DistinctIds(c)
      && (forall k :: 0 <= k < |c| ==> c[k].id in ids && c[k].Value? && Completes(c[k].id, c[k].data) in events)
  {
    if events != [] {
      var earlier, e := events[..|events| - 1], events[|events| - 1];
      CompletionsFromEvents(ids, earlier);
      assert events == earlier + [e];
      var c := Completions(ids, earlier);
      if e.Completes? && e.id in ids && e.id !in Ids(c) {
        assert Completions(ids, events) == c + [Value(e.id, e.data)];
        DistinctTogether(c, [Value(e.id, e.data)]);
      } else {
        assert Completions(ids, events) == c;
      }
    }
  }

  lemma {:induction false} TimeoutsExactly<Id, Data>(missing: seq<Id>, resolvable: set<Id>)
    requires Distinct(missing)
    ensures var t: seq<Entry<Id, Data>> := TimeoutsFor(missing, resolvable);
      && DistinctIds(t)
      && (forall k :: 0 <= k < |t| ==> t[k].TimedOut?)
      && (forall id :: id in Ids(t) <==> id in missing && id in resolvable)
  {
    if missing != [] {
      var r, x := missing[..|missing| - 1], missing[|missing| - 1];
      TimeoutsExactly<Id, Data>(r, resolvable);
      assert missing == r + [x] && x !in r;
      var t: seq<Entry<Id, Data>> := TimeoutsFor(r, resolvable);
      if x in resolvable {
        DistinctTogether(t, [TimedOut(x)]);
        IdsGrow(t, TimedOut(x));
      } else {
        assert t + [] == t;
      }
    }
  }

  lemma IdsTogether<Id, Data>(a: seq<Entry<Id, Data>>, b: seq<Entry<Id, Data>>)
    ensures Ids(a + b) == Ids(a) + Ids(b)
  {
    forall id | id in Ids(b) ensures id in Ids(a + b) {
      var k :| 0 <= k < |b| && b[k].id == id;
      assert (a + b)[|a| + k] == b[k];
    }
    forall id | id in Ids(a) ensures id in Ids(a + b) {
      var k :| 0 <= k < |a| && a[k].id == id;
      assert (a + b)[k] == a[k];
    }
  }

  lemma TimeoutsComplete<Id, Data>(ids: seq<Id>, c: seq<Entry<Id, Data>>, resolvable: set<Id>)
    requires Distinct(ids) && DistinctIds(c)
    requires forall k :: 0 <= k < |c| ==> c[k].Value?
    ensures var a := WithTimeouts(ids, c, resolvable);
      && DistinctIds(a)
      && (forall k :: 0 <= k < |a| ==> if a[k].Value? then a[k] in c else a[k].id in ids && a[k].id !in Ids(c))
      && (forall id <- ids :: id in Ids(a) <==> id in Ids(c) || id in resolvable)
  {
    ExcludingMembers(ids, Ids(c));
    var missing := Excluding(ids, Ids(c));
    TimeoutsExactly<Id, Data>(missing, resolvable);
    var t: seq<Entry<Id, Data>> := TimeoutsFor(missing, resolvable);
    IdsTogether(c, t);
    DistinctTogether(c, t);
    forall k | 0 <= k < |t| ensures t[k].TimedOut? && t[k].id in ids && t[k].id !in Ids(c) { assert t[k].id in Ids(t); }
  }

  /** The answer names every id at most once; an id is missing from it only if it had not completed and the final timer
      could not resolve it. Values come from completions, and what timed out had not completed. */
  lemma AnswerNamesEachOnce<Id, Data>(ids: seq<Id>, events: seq<Event<Id, Data>>)
    requires Distinct(ids) && Decided(ids, events)
    ensures var a, n := Answer(ids, events), Deciding(ids, events);
      var completed := Ids(Completions(ids, events[..n]));
      && DistinctIds(a)
      && (forall k :: 0 <= k < |a| ==>
            a[k].id in ids && if a[k].Value? then Completes(a[k].id, a[k].data) in events[..n]
            else a[k].id !in completed)
      && (forall id <- ids :: id in Ids(a) <==> id in completed || id in Resolvable(events[n - 1]))
  {
    var n := Deciding(ids, events);
    CompletionsFromEvents(ids, events[..n]);
    TimeoutsComplete(ids, Completions(ids, events[..n]), Resolvable(events[n - 1]));
  }

  /** Until the answer, every requested id is either missing or collected, and never both. */
  lemma NothingLost<Id, Data>(ids: seq<Id>, events: seq<Event<Id, Data>>)
    requires Distinct(ids) && !Decided(ids, events)
    ensures var f := Run(ids, events);
      && (forall id :: id in ids <==> (id in f.missing || id in Ids(f.collected)))
      && (forall id :: !(id in f.missing && id in Ids(f.collected)))
      && Distinct(f.missing)
      && forall id :: id in f.pending <==> id in f.missing
  {
    RunTracked(ids, events);
    var f := Run(ids, events);
    ExcludingMembers(ids, Ids(f.collected));
    CompletionsFromEvents(ids, events);
  }

  /** Once the answer is out, a late completion or a timer changes neither the answer nor the entries it was made of. */
  lemma {:induction false} LateEventsIgnored<Id, Data>(ids: seq<Id>, events: seq<Event<Id, Data>>, e: Event<Id, Data>)
    requires Run(ids, events).answers != []
    ensures var f := Run(ids, events);
      Run(ids, events + [e]) == if e.Completes? then f.(pending := f.pending - {e.id}) else f
  {
    RunTracked(ids, events);
    assert (events + [e])[..|events|] == events;
  }

  // ---------------------------------------------------------------- the objects

  class Aggregator<Id(==), Data> {
    var pending: set<Id>
    var missingCharacteristics: seq<Id>
    var characteristics: seq<Entry<Id, Data>>
    var timeout: Timer
    ghost var answers: seq<seq<Entry<Id, Data>>>
    ghost var warnings: seq<Warning<Id>>

    ghost function View(): FanOut<Id, Data>
      reads this
    {
      FanOut(pending, missingCharacteristics, characteristics, timeout, answers, warnings)
    }

    constructor ()
      ensures View() == FanOut({}, [], [], Undefined, [], [])
    {
      pending, missingCharacteristics, characteristics, timeout := {}, [], [], Undefined;
      answers, warnings := [], [];
    }

    /** A request with duplicate ids is refused at once; any other one starts to wait. */
    method HandleRequest(ids: seq<Id>) returns (refused: bool)
      requires View() == FanOut({}, [], [], Undefined, [], [])
      modifies this
      ensures refused <==> !Distinct(ids)
      ensures !refused ==> View() == Started(ids)
      ensures refused ==> timeout.Undefined? && answers == []
    {
      var k := 0;
      while k < |ids|
        invariant 0 <= k <= |ids|
        invariant missingCharacteristics == Inserted(ids[..k])
        invariant View() == FanOut({}, missingCharacteristics, [], Undefined, [], [])
      {
        assert ids[..k + 1][..k] == ids[..k];
        if ids[k] !in missingCharacteristics {
          missingCharacteristics := missingCharacteristics + [ids[k]];
        }
        k := k + 1;
      }
      assert ids[..k] == ids;
      SizesTellDuplicates(ids);
      if |missingCharacteristics| != |ids| {
        return true;
      }
      timeout := FirstArmed;
      pending := set id | id in ids;
      refused := false;
    }

    method Settle(id: Id, data: Data)
      requires id in pending
      modifies this
      ensures View() == Step(old(View()), Completes(id, data))
    {
      pending := pending - {id};
      if timeout.Undefined? {
        return;
      }
      missingCharacteristics := Excluding(missingCharacteristics, {id});
      characteristics := characteristics + [Value(id, data)];
      if |missingCharacteristics| == 0 {
        timeout := Undefined;
        answers := answers + [characteristics];
      }
    }

    method WarnSlow(resolvable: set<Id>)
      requires timeout.FirstArmed?
      modifies this
      ensures View() == Step(old(View()), TimerFires(resolvable))
    {
      ghost var before := warnings;
      var k := 0;
      while k < |missingCharacteristics|
        invariant 0 <= k <= |missingCharacteristics|
        invariant View()
          == old(View()).(warnings := before + WarningsFor(missingCharacteristics[..k], resolvable, false))
      {
        assert missingCharacteristics[..k + 1][..k] == missingCharacteristics[..k];
        if missingCharacteristics[k] in resolvable {
          warnings := warnings + [Slow(missingCharacteristics[k])];
        }
        k := k + 1;
      }
      assert missingCharacteristics[..k] == missingCharacteristics;
      timeout := SecondArmed;
    }

    method GiveUp(resolvable: set<Id>)
      requires timeout.SecondArmed?
      modifies this
      ensures View() == Step(old(View()), TimerFires(resolvable))
    {
      timeout := Undefined;
      ghost var before := old(View());
      var k := 0;
      while k < |missingCharacteristics|
        invariant 0 <= k <= |missingCharacteristics|
        invariant View() == before.(timer := Undefined,
                                    collected := before.collected
                                      + TimeoutsFor(missingCharacteristics[..k], resolvable),
                                    warnings := before.warnings
                                      + WarningsFor(missingCharacteristics[..k], resolvable, true))
      {
        assert missingCharacteristics[..k + 1][..k] == missingCharacteristics[..k];
        if missingCharacteristics[k] in resolvable {
          warnings := warnings + [Unanswered(missingCharacteristics[k])];
          characteristics := characteristics + [TimedOut(missingCharacteristics[k])];
        }
        k := k + 1;
      }
      assert missingCharacteristics[..k] == missingCharacteristics;
      missingCharacteristics := [];
      answers := answers + [characteristics];
    }
  }
}
