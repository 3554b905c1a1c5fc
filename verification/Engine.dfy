/**
 The discrete-event engine: a queue sorted by tick that is scanned to insert, move and remove entries. Whatever is
 scheduled, moved, removed or run, the events run and still to run are in order of their ticks, and among equal ticks in
 the order they were scheduled.
 */
module EventEngine {

  /** The stamp counts schedulings; it is there to speak of their order. */
  datatype Entry = Entry(event: nat, tick: nat, ghost stamp: nat)

  ghost predicate Before(a: Entry, b: Entry) {
    a.tick < b.tick || (a.tick == b.tick && a.stamp < b.stamp)
  }

  ghost predicate Ascending(s: seq<Entry>) {
    forall i, j :: 0 <= i < j < |s| ==> Before(s[i], s[j])
  }

  ghost predicate Distinct(s: seq<Entry>) {
    forall i, j :: 0 <= i < j < |s| ==> s[i].event != s[j].event
  }

  predicate Has(s: seq<Entry>, event: nat) {
    exists i :: 0 <= i < |s| && s[i].event == event
  }

  predicate ScheduledAt(s: seq<Entry>, event: nat, tick: nat) {
    exists i :: 0 <= i < |s| && s[i].event == event && s[i].tick == tick
  }

  function Without(s: seq<Entry>, event: nat): seq<Entry> {
    if |s| == 0 then [] else if s[0].event == event then s[1..] else [s[0]] + Without(s[1..], event)
  }

  /** Behind every entry of the tick or earlier. */
  function Place(s: seq<Entry>, tick: nat): (p: nat)
    ensures p <= |s|
    ensures forall i :: 0 <= i < p ==> s[i].tick <= tick
    ensures p < |s| ==> s[p].tick > tick
  {
    if |s| == 0 || s[0].tick > tick then 0 else 1 + Place(s[1..], tick)
  }

  function Insert(s: seq<Entry>, e: Entry): seq<Entry> {
    s[..Place(s, e.tick)] + [e] + s[Place(s, e.tick)..]
  }

  lemma {:induction false} WithoutAt(s: seq<Entry>, event: nat, i: nat)
    requires i < |s| && s[i].event == event && forall k :: 0 <= k < i ==> s[k].event != event
    ensures Without(s, event) == s[..i] + s[i + 1..]
  {
    if i > 0 {
      WithoutAt(s[1..], event, i - 1);
      assert s[1..][..i - 1] == s[1..i] && s[1..][i..] == s[i + 1..];
    }
  }

  lemma {:induction false} WithoutAbsent(s: seq<Entry>, event: nat)
    requires forall k :: 0 <= k < |s| ==> s[k].event != event
    ensures Without(s, event) == s
  {
    if |s| > 0 {
      WithoutAbsent(s[1..], event);
    }
  }

  /** Removing an event leaves the others in order. */
  lemma WithoutKeeps(ran: seq<Entry>, s: seq<Entry>, event: nat)
    requires Ascending(ran + s) && Distinct(s)
    ensures Ascending(ran + Without(s, event)) && Distinct(Without(s, event)) && !Has(Without(s, event), event)
    ensures forall e :: e in Without(s, event) <==> e in s && e.event != event
  {
    if i :| 0 <= i < |s| && s[i].event == event {
      WithoutAt(s, event, i);
      var t := s[..i] + s[i + 1..];
      RemoveAscending(ran, s, i);
      forall e | e in s && e.event != event
        ensures e in t
      {
        var k :| 0 <= k < |s| && s[k] == e;
        assert t[if k < i then k else k - 1] == e;
      }
    } else {
      WithoutAbsent(s, event);
    }
  }

  lemma RemoveAscending(ran: seq<Entry>, s: seq<Entry>, i: nat)
    requires Ascending(ran + s) && i < |s|
    ensures Ascending(ran + (s[..i] + s[i + 1..]))
  {
    var all, t := ran + s, ran + (s[..i] + s[i + 1..]);
    forall a, b | 0 <= a < b < |t|
      ensures Before(t[a], t[b])
    {
      var x, y := if a < |ran| + i then a else a + 1, if b < |ran| + i then b else b + 1;
      assert t[a] == all[x] && t[b] == all[y];
    }
  }

  lemma InsertAscending(all: seq<Entry>, at: nat, e: Entry)
    requires Ascending(all) && at <= |all|
    requires forall k :: 0 <= k < at ==> Before(all[k], e)
    requires forall k :: at <= k < |all| ==> Before(e, all[k])
    ensures Ascending(all[..at] + [e] + all[at..])
  {
    hide Before;
  }

  /** A freshly stamped entry, not in the past, keeps the order wherever its tick puts it. */
  lemma InsertKeeps(ran: seq<Entry>, s: seq<Entry>, e: Entry)
    requires Ascending(ran + s) && Distinct(s) && !Has(s, e.event)
    requires forall x :: x in ran + s ==> x.stamp < e.stamp
    requires forall x :: x in ran ==> x.tick <= e.tick
    ensures Ascending(ran + Insert(s, e)) && Distinct(Insert(s, e))
    ensures forall x :: x in Insert(s, e) <==> x == e || x in s
  {
    hide Distinct, Has;
    var p := Place(s, e.tick);
    var all, at := ran + s, |ran| + p;
    EarlierBefore(ran, s, e);
    LaterBehind(ran, s, e);
    InsertAscending(all, at, e);
    assert ran + Insert(s, e) == all[..at] + [e] + all[at..];
    InsertDistinct(s, e);
  }

  lemma EarlierBefore(ran: seq<Entry>, s: seq<Entry>, e: Entry)
    requires forall x :: x in ran + s ==> x.stamp < e.stamp
    requires forall x :: x in ran ==> x.tick <= e.tick
    ensures forall k :: 0 <= k < |ran| + Place(s, e.tick) ==> Before((ran + s)[k], e)
  {
    forall k | 0 <= k < |ran| + Place(s, e.tick)
      ensures Before((ran + s)[k], e)
    {
      var x := (ran + s)[k];
      assert x in ran + s;
      if k < |ran| {
        assert x == ran[k];
      } else {
        assert x == s[k - |ran|];
      }
    }
  }

  lemma LaterBehind(ran: seq<Entry>, s: seq<Entry>, e: Entry)
    requires Ascending(ran + s)
    ensures forall k :: |ran| + Place(s, e.tick) <= k < |ran + s| ==> Before(e, (ran + s)[k])
  {
    var all, at := ran + s, |ran| + Place(s, e.tick);
    forall k | at <= k < |all|
      ensures Before(e, all[k])
    {
      assert s[Place(s, e.tick)] == all[at] && (k > at ==> Before(all[at], all[k]));
    }
  }

  lemma InsertDistinct(s: seq<Entry>, e: Entry)
    requires Distinct(s) && !Has(s, e.event)
    ensures Distinct(Insert(s, e))
    ensures forall x :: x in Insert(s, e) <==> x == e || x in s
  {
    var p, t := Place(s, e.tick), Insert(s, e);
    assert forall k :: 0 <= k < |t| ==> t[k] == if k < p then s[k] else if k == p then e else s[k - 1];
    forall x | x in s
      ensures x in t
    {
      var k :| 0 <= k < |s| && s[k] == x;
      assert t[if k < p then k else k + 1] == x;
    }
  }

  lemma PlaceIs(s: seq<Entry>, tick: nat, p: nat)
    requires p <= |s| && (forall i :: 0 <= i < p ==> s[i].tick <= tick) && (p < |s| ==> s[p].tick > tick)
    ensures Place(s, tick) == p
  {
  }

  /** Where the moved entry belongs once the old one is gone. */
  lemma {:induction false} PlaceWithout(s: seq<Entry>, gone: nat, tick: nat)
    requires Ascending(s) && gone < |s|
    ensures var at := Place(s, tick);
      Place(s[..gone] + s[gone + 1..], tick) == if at <= gone then at else at - 1
  {
    var at, r := Place(s, tick), s[..gone] + s[gone + 1..];
    assert forall k :: 0 <= k < |r| ==> r[k] == if k < gone then s[k] else s[k + 1];
    if at <= gone {
      assert at == gone && gone + 1 < |s| ==> Before(s[gone], s[gone + 1]);
      PlaceIs(r, tick, at);
    } else {
      PlaceIs(r, tick, at - 1);
    }
  }

  /** Inserting the moved entry and then erasing the old one is removing it and then inserting. */
  lemma {:induction false} MoveIs(s: seq<Entry>, gone: nat, e: Entry, at: nat)
    requires Ascending(s) && Distinct(s) && gone < |s| && s[gone].event == e.event && at == Place(s, e.tick)
    ensures var t := s[..at] + [e] + s[at..];
      var o := if at <= gone then gone + 1 else gone;
      t[..o] + t[o + 1..] == Insert(Without(s, e.event), e)
  {
    var r := s[..gone] + s[gone + 1..];
    assert Without(s, e.event) == r by { WithoutAt(s, e.event, gone); }
    assert Insert(r, e) == if at <= gone then r[..at] + [e] + r[at..] else r[..at - 1] + [e] + r[at - 1..] by {
      PlaceWithout(s, gone, e.tick);
    }
    hide *;
    if at <= gone {
      Backward(s, at, gone, e);
    } else {
      Forward(s, gone, at, e);
    }
  }

  lemma Backward(s: seq<Entry>, at: nat, gone: nat, e: Entry)
    requires at <= gone < |s|
    ensures var t, r := s[..at] + [e] + s[at..], s[..gone] + s[gone + 1..];
      t[..gone + 1] + t[gone + 2..] == r[..at] + [e] + r[at..]
  {
    var t, r := s[..at] + [e] + s[at..], s[..gone] + s[gone + 1..];
    assert t[..gone + 1] == s[..at] + [e] + s[at..gone];
    assert t[gone + 2..] == s[gone + 1..];
    assert r[..at] == s[..at];
    assert r[at..] == s[at..gone] + s[gone + 1..];
  }

  lemma Forward(s: seq<Entry>, gone: nat, at: nat, e: Entry)
    requires gone < at <= |s|
    ensures var t, r := s[..at] + [e] + s[at..], s[..gone] + s[gone + 1..];
      t[..gone] + t[gone + 1..] == r[..at - 1] + [e] + r[at - 1..]
  {
    var t, r := s[..at] + [e] + s[at..], s[..gone] + s[gone + 1..];
    assert t[..gone] == s[..gone];
    assert t[gone + 1..] == s[gone + 1..at] + [e] + s[at..];
    assert r[..at - 1] == s[..gone] + s[gone + 1..at];
    assert r[at - 1..] == s[at..];
  }

  lemma OnlyEntry(s: seq<Entry>, at: nat, tick: nat)
    requires Distinct(s) && at < |s|
    ensures Has(s, s[at].event) && (ScheduledAt(s, s[at].event, tick) <==> s[at].tick == tick)
  {
  }

  lemma InsertIs(s: seq<Entry>, e: Entry)
    ensures Insert(s, e) == s[..Place(s, e.tick)] + [e] + s[Place(s, e.tick)..]
  {
  }

  class Engine {
    var simTick: nat
    var counter: nat
    var forceStop: bool
    /** What each allocated event calls. */
    var eventList: map<nat, nat>
    var eventQueue: seq<Entry>
    var eventHandled: nat
    ghost var clock: nat
    /** The entries run, oldest first. */
    ghost var ran: seq<Entry>

    /** The entries run and to run are in order; entries to run are of allocated events, one each, none in the past. */
    ghost predicate Valid()
      reads this
    {
      && Ascending(ran + eventQueue) && Distinct(eventQueue)
      && (forall e :: e in eventQueue ==> e.event in eventList && simTick <= e.tick)
      && (forall e :: e in ran + eventQueue ==> e.stamp < clock)
      && (forall e :: e in ran ==> e.tick <= simTick)
      && (forall k :: k in eventList ==> k <= counter)
      && eventHandled == |ran|
    }

    constructor ()
      ensures Valid() && eventQueue == [] && eventList == map[] && simTick == 0 && ran == []
    {
      simTick, counter, forceStop, eventHandled := 0, 0, false, 0;
      eventList, eventQueue, ran, clock := map[], [], [], 0;
    }

    /** One scan finds the event's old entry and the first later entry. */
    method Scan(event: nat, tick: nat) returns (found: bool, oldAt: nat, insertAt: nat)
      ensures found ==> oldAt < |eventQueue| && eventQueue[oldAt].event == event
      ensures !found ==> !Has(eventQueue, event)
      ensures insertAt == Place(eventQueue, tick)
    {
      found := false;
      var flag := false;
      oldAt, insertAt := 0, |eventQueue|;
      var i := 0;
      while i < |eventQueue|
        invariant i <= |eventQueue| && insertAt <= |eventQueue|
        invariant found ==> oldAt < i && eventQueue[oldAt].event == event
        invariant !found ==> forall k :: 0 <= k < i ==> eventQueue[k].event != event
        invariant !flag ==> insertAt == |eventQueue| && forall k :: 0 <= k < i ==> eventQueue[k].tick <= tick
        invariant flag ==> insertAt < |eventQueue| && eventQueue[insertAt].tick > tick
        invariant flag ==> forall k :: 0 <= k < insertAt ==> eventQueue[k].tick <= tick
      {
        if eventQueue[i].event == event {
          found := true;
          oldAt := i;
        }
        if eventQueue[i].tick > tick && !flag {
          insertAt := i;
          flag := true;
        }
        i := i + 1;
      }
      PlaceIs(eventQueue, tick, insertAt);
    }

    /** Inserts before the first later entry and then erases the old entry; a rescheduling to the same tick is
        ignored. */
    method InsertEvent(event: nat, tick: nat) returns (found: bool)
      requires Ascending(eventQueue) && Distinct(eventQueue)
      modifies `eventQueue
      ensures found <==> old(Has(eventQueue, event)) && !old(ScheduledAt(eventQueue, event, tick))
      ensures eventQueue ==
        if old(ScheduledAt(eventQueue, event, tick)) then old(eventQueue)
        else Insert(Without(old(eventQueue), event), Entry(event, tick, clock))
    {
      hide Ascending, Insert, Place, Without;
      var oldAt, insertAt;
      found, oldAt, insertAt := Scan(event, tick);
      if found {
        OnlyEntry(eventQueue, oldAt, tick);
        if eventQueue[oldAt].tick == tick {
          return false;
        }
        MoveIs(eventQueue, oldAt, Entry(event, tick, clock), insertAt);
        eventQueue := eventQueue[..insertAt] + [Entry(event, tick, clock)] + eventQueue[insertAt..];
        var at := if insertAt <= oldAt then oldAt + 1 else oldAt;
        eventQueue := eventQueue[..at] + eventQueue[at + 1..];
      } else {
        WithoutAbsent(eventQueue, event);
        InsertIs(eventQueue, Entry(event, tick, clock));
        eventQueue := eventQueue[..insertAt] + [Entry(event, tick, clock)] + eventQueue[insertAt..];
      }
    }

    method RemoveEvent(event: nat) returns (found: bool)
      modifies `eventQueue
      ensures eventQueue == Without(old(eventQueue), event)
      ensures found <==> old(Has(eventQueue, event))
    {
      found := false;
      var i := 0;
      while i < |eventQueue|
        invariant i <= |eventQueue| && eventQueue == old(eventQueue) && !found
        invariant forall k :: 0 <= k < i ==> eventQueue[k].event != event
      {
        if eventQueue[i].event == event {
          WithoutAt(eventQueue, event, i);
          eventQueue := eventQueue[..i] + eventQueue[i + 1..];
          found := true;
          return;
        }
        i := i + 1;
      }
      WithoutAbsent(eventQueue, event);
    }

    method AllocateEvent(func: nat) returns (event: nat)
      requires Valid()
      modifies `counter, `eventList
      ensures Valid() && event !in old(eventList) && eventList == old(eventList)[event := func]
    {
      counter := counter + 1;
      assert counter !in eventList;
      eventList := eventList[counter := func];
      return counter;
    }

    /** `ok` is false where the program panics: the event was never allocated, or no longer is. */
    method ScheduleEvent(event: nat, tick0: nat) returns (ok: bool)
      requires Valid()
      modifies `eventQueue, `clock
      ensures Valid() && (ok <==> event in eventList)
      ensures var tick := if tick0 < simTick then simTick else tick0;
        eventQueue ==
          if !ok || old(ScheduledAt(eventQueue, event, tick)) then old(eventQueue)
          else Insert(Without(old(eventQueue), event), Entry(event, tick, old(clock)))
    {
      if event in eventList {
        var tick := if tick0 < simTick then simTick else tick0;
        assert Ascending(eventQueue) by { TailAscending(ran, eventQueue); }
        WithoutKeeps(ran, eventQueue, event);
        ghost var e := Entry(event, tick, clock);
        InsertKeeps(ran, Without(eventQueue, event), e);
        var _ := InsertEvent(event, tick);
        clock := clock + 1;
        ok := true;
      } else {
        ok := false;
      }
    }

    method DescheduleEvent(event: nat) returns (ok: bool)
      requires Valid()
      modifies `eventQueue
      ensures Valid() && (ok <==> event in eventList)
      ensures eventQueue == if ok then Without(old(eventQueue), event) else old(eventQueue)
    {
      if event in eventList {
        WithoutKeeps(ran, eventQueue, event);
        var _ := RemoveEvent(event);
        ok := true;
      } else {
        ok := false;
      }
    }

    method DeallocateEvent(event: nat) returns (ok: bool)
      requires Valid()
      modifies `eventQueue, `eventList
      ensures Valid() && (ok <==> event in old(eventList))
      ensures eventQueue == if ok then Without(old(eventQueue), event) else old(eventQueue)
      ensures eventList == old(eventList) - {event}
    {
      if event in eventList {
        WithoutKeeps(ran, eventQueue, event);
        var _ := RemoveEvent(event);
        eventList := eventList - {event};
        ok := true;
      } else {
        ok := false;
      }
    }

    /** Takes the first entry and moves the clock to it; what its handler does are further operations. The entry's
        event is always allocated, so the panic is unreachable, and the clock never goes back. */
    method DoNextEvent() returns (handled: bool, event: nat, func: nat)
      requires Valid()
      modifies `simTick, `eventQueue, `eventHandled, `ran
      ensures Valid()
      ensures handled <==> !forceStop && |old(eventQueue)| > 0
      ensures handled ==>
        && eventQueue == old(eventQueue)[1..] && ran == old(ran) + [old(eventQueue)[0]]
        && event == old(eventQueue)[0].event && event in eventList && func == eventList[event]
        && old(simTick) <= simTick == old(eventQueue)[0].tick
        && forall e :: e in eventQueue ==> Before(old(eventQueue)[0], e)
      ensures !handled ==> eventQueue == old(eventQueue) && ran == old(ran) && simTick == old(simTick)
    {
      hide Ascending, Distinct;
      handled, event, func := false, 0, 0;
      if forceStop {
        return;
      }
      if |eventQueue| > 0 {
        var now := eventQueue[0];
        assert now in eventQueue;
        simTick := now.tick;
        FirstBefore(ran, eventQueue);
        eventQueue := eventQueue[1..];
        ran := ran + [now];
        if now.event in eventList {
          event, func := now.event, eventList[now.event];
        } else {
          assert false;
        }
        eventHandled := eventHandled + 1;
        handled := true;
      }
    }
  }

  lemma FirstBefore(ran: seq<Entry>, s: seq<Entry>)
    requires Ascending(ran + s) && Distinct(s) && |s| > 0
    ensures Ascending((ran + [s[0]]) + s[1..]) && Distinct(s[1..])
    ensures (ran + [s[0]]) + s[1..] == ran + s
    ensures forall e :: e in s[1..] ==> Before(s[0], e)
  {
    TailAscending(ran, s);
    assert (ran + [s[0]]) + s[1..] == ran + s;
    forall e | e in s[1..]
      ensures Before(s[0], e)
    {
      var k :| 0 <= k < |s[1..]| && s[1..][k] == e;
      assert s[k + 1] == e;
    }
  }

  lemma TailAscending(a: seq<Entry>, b: seq<Entry>)
    requires Ascending(a + b)
    ensures Ascending(b)
  {
    forall i, j | 0 <= i < j < |b|
      ensures Before(b[i], b[j])
    {
      assert (a + b)[|a| + i] == b[i] && (a + b)[|a| + j] == b[j];
    }
  }
}
