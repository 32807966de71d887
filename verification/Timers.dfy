/**
 The timer container shared by tornado/TimeoutQueue.h and tornado/shm/container.hpp:
 events ordered by expiration, unique by id, with ids drawn from a wrapping unsigned
 counter that skips zero.
 */
module Timers {

  const INT64_MAX: int := 0x7FFF_FFFF_FFFF_FFFF
  const IDS_64: int := 0x1_0000_0000_0000_0000
  const IDS_32: int := 0x1_0000_0000

  datatype Event<+C> = Event(id: nat, expiration: int, callback: C)

  /** `events` is the by-expiration order; `nextId` is the raw counter. */
  datatype Timers<+C> = Timers(events: seq<Event<C>>, nextId: nat)

  ghost predicate Sorted<C>(es: seq<Event<C>>) {
    forall i, j :: 0 <= i < j < |es| ==> es[i].expiration <= es[j].expiration
  }

  ghost predicate DistinctIds<C>(es: seq<Event<C>>) {
    forall i, j :: 0 <= i < j < |es| ==> es[i].id != es[j].id
  }

  ghost predicate WellFormed<C>(t: Timers<C>, ids: int) {
    && Sorted(t.events) && DistinctIds(t.events)
    && t.nextId < ids
    && forall i :: 0 <= i < |t.events| ==> 1 <= t.events[i].id < ids
  }

  /** Index of the first event that expires after `x`. */
  function UpperBound<C>(es: seq<Event<C>>, x: int): (k: nat)
    ensures k <= |es|
  {
    if es == [] || es[0].expiration > x then 0 else 1 + UpperBound(es[1..], x)
  }

  lemma {:induction false} UpperBoundSplits<C>(es: seq<Event<C>>, x: int)
    ensures forall i :: 0 <= i < UpperBound(es, x) ==> es[i].expiration <= x
    ensures UpperBound(es, x) < |es| ==> es[UpperBound(es, x)].expiration > x
  {
    if es != [] && es[0].expiration <= x {
      UpperBoundSplits(es[1..], x);
      forall i | 0 <= i < UpperBound(es, x) ensures es[i].expiration <= x {
        if i > 0 { assert es[1..][i - 1].expiration <= x; }
      }
    }
  }

  predicate HasId<C>(es: seq<Event<C>>, id: nat) {
    exists i :: 0 <= i < |es| && es[i].id == id
  }

  /** Index of the event with the given id. */
  function IndexOf<C>(es: seq<Event<C>>, id: nat): (k: nat)
    requires HasId(es, id)
    ensures k < |es| && es[k].id == id
  {
    if es[0].id == id then 0
    else
      assert exists i :: 0 <= i < |es[1..]| && es[1..][i].id == id by {
        var i :| 0 <= i < |es| && es[i].id == id;
        assert es[1..][i - 1].id == id;
      }
      1 + IndexOf(es[1..], id)
  }

  function InsertAt<T>(es: seq<T>, k: nat, e: T): (r: seq<T>)
    requires k <= |es|
    ensures multiset(r) == multiset(es) + multiset{e}
  {
    assert es == es[..k] + es[k..];
    es[..k] + [e] + es[k..]
  }

  function RemoveAt<T>(es: seq<T>, k: nat): (r: seq<T>)
    requires k < |es|
    ensures multiset(es) == multiset(r) + multiset{es[k]}
  {
    assert es == es[..k] + [es[k]] + es[k + 1..];
    es[..k] + es[k + 1..]
  }

  /** Inserts after the events that expire no later. */
  function Placed<C>(es: seq<Event<C>>, e: Event<C>): (r: seq<Event<C>>)
    ensures multiset(r) == multiset(es) + multiset{e}
  {
    InsertAt(es, UpperBound(es, e.expiration), e)
  }

  /** The id the next add uses: the counter, except that zero is skipped. */
  function Proposed<C>(t: Timers<C>): nat { if t.nextId == 0 then 1 else t.nextId }

  /** add: the counter always moves; the insert is refused when the id is taken. */
  function Added<C>(t: Timers<C>, ids: int, expiration: int, callback: C): Timers<C>
    requires ids > 1
  {
    var id := Proposed(t);
    var next := if id + 1 == ids then 0 else id + 1;
    if HasId(t.events, id) then Timers(t.events, next)
    else
      Timers(Placed(t.events, Event(id, expiration, callback)), next)
  }

  function Erased<C>(t: Timers<C>, id: nat): Timers<C> {
    if !HasId(t.events, id) then t
    else
      var k := IndexOf(t.events, id);
      t.(events := RemoveAt(t.events, k))
  }

  function Due<C>(t: Timers<C>, now: int): seq<Event<C>> {
    t.events[..UpperBound(t.events, now)]
  }

  function Later<C>(t: Timers<C>, now: int): Timers<C> {
    t.(events := t.events[UpperBound(t.events, now)..])
  }

  function Soonest<C>(t: Timers<C>): int {
    if t.events == [] then INT64_MAX else t.events[0].expiration
  }

  // ---------------------------------------------------------------- one operation

  lemma InsertKeepsOrder<C>(es: seq<Event<C>>, e: Event<C>)
    requires Sorted(es)
    ensures Sorted(Placed(es, e))
  {
    var k := UpperBound(es, e.expiration);
    UpperBoundSplits(es, e.expiration);
    var r := InsertAt(es, k, e);
    forall i, j | 0 <= i < j < |r| ensures r[i].expiration <= r[j].expiration {
      if k < j && i <= k { assert es[k].expiration <= es[j - 1].expiration; }
    }
  }

  lemma InsertKeepsIds<C>(es: seq<Event<C>>, e: Event<C>)
    requires DistinctIds(es) && !HasId(es, e.id)
    ensures DistinctIds(Placed(es, e))
  {
  }

  /** An add that is not refused inserts exactly one event and keeps the order. */
  lemma AddInserts<C>(t: Timers<C>, ids: int, expiration: int, callback: C)
    requires ids > 1 && WellFormed(t, ids)
    ensures var t' := Added(t, ids, expiration, callback);
      && WellFormed(t', ids)
      && multiset(t'.events) ==
         multiset(t.events) + (if HasId(t.events, Proposed(t)) then multiset{}
                               else multiset{Event(Proposed(t), expiration, callback)})
  {
    var e := Event(Proposed(t), expiration, callback);
    if !HasId(t.events, e.id) {
      InsertKeepsOrder(t.events, e);
      InsertKeepsIds(t.events, e);
      var es := Added(t, ids, expiration, callback).events;
      forall i | 0 <= i < |es| ensures 1 <= es[i].id < ids {
        assert es[i] in multiset(es);
        assert es[i] in t.events || es[i] == e;
      }
    }
  }

  lemma RemoveKeeps<C>(es: seq<Event<C>>, k: nat, ids: int)
    requires Sorted(es) && DistinctIds(es) && k < |es|
    requires forall i :: 0 <= i < |es| ==> 1 <= es[i].id < ids
    ensures var r := RemoveAt(es, k);
      && Sorted(r) && DistinctIds(r) && !HasId(r, es[k].id)
      && forall i :: 0 <= i < |r| ==> 1 <= r[i].id < ids
  {
    var r := RemoveAt(es, k);
    assert forall i :: 0 <= i < |r| ==> r[i] == es[if i < k then i else i + 1];
  }

  /** An erase removes the event with that id, if there is one, and nothing else. */
  lemma EraseRemoves<C>(t: Timers<C>, ids: int, id: nat)
    requires WellFormed(t, ids)
    ensures var t' := Erased(t, id);
      && WellFormed(t', ids)
      && !HasId(t'.events, id)
      && (HasId(t.events, id) ==>
            multiset(t.events) == multiset(t'.events) + multiset{t.events[IndexOf(t.events, id)]})
      && (!HasId(t.events, id) ==> t' == t)
  {
    if HasId(t.events, id) { RemoveKeeps(t.events, IndexOf(t.events, id), ids); }
  }

  lemma DueSplitsAt<C>(es: seq<Event<C>>, k: nat, now: int)
    requires Sorted(es) && k == UpperBound(es, now)
    ensures forall e :: e in es[..k] <==> e in es && e.expiration <= now
    ensures forall e :: e in es[k..] <==> e in es && e.expiration > now
  {
    UpperBoundSplits(es, now);
    forall i | k <= i < |es| ensures es[i].expiration > now {
      assert k == i || es[k].expiration <= es[i].expiration;
    }
    forall e | e in es ensures if e.expiration <= now then e in es[..k] else e in es[k..] {
      var i :| 0 <= i < |es| && es[i] == e;
      if i < k { assert es[..k][i] == e; } else { assert es[k..][i - k] == e; }
    }
  }

  lemma LaterWellFormed<C>(t: Timers<C>, ids: int, now: int)
    requires WellFormed(t, ids)
    ensures WellFormed(Later(t, now), ids) && Sorted(Due(t, now))
  {
  }

  /** Taking the due events splits the queue exactly at `now`, losing nothing. */
  lemma DueSplits<C>(t: Timers<C>, ids: int, now: int)
    requires WellFormed(t, ids)
    ensures WellFormed(Later(t, now), ids) && Sorted(Due(t, now))
    ensures Due(t, now) + Later(t, now).events == t.events
    ensures forall e :: e in Due(t, now) <==> e in t.events && e.expiration <= now
    ensures forall e :: e in Later(t, now).events <==> e in t.events && e.expiration > now
  {
    LaterWellFormed(t, ids, now);
    DueSplitsAt(t.events, UpperBound(t.events, now), now);
  }

  /** nextExpiration is the true minimum of the queue. */
  lemma SoonestIsMinimum<C>(t: Timers<C>, ids: int)
    requires WellFormed(t, ids) && t.events != []
    ensures exists e :: e in t.events && e.expiration == Soonest(t)
    ensures forall e :: e in t.events ==> Soonest(t) <= e.expiration
  {
    assert t.events[0] in t.events;
  }

  // ------------------------------------------------------------------ wrapping ids

  lemma MulGrows(m: int, d: int)
    requires m > 0 && d >= 1
    ensures m * d >= m
    decreases d
  {
    if d > 1 {
      MulGrows(m, d - 1);
      assert m * d == m * (d - 1) + m;
    }
  }

  lemma MulSmall(m: int, d: int)
    requires m > 0 && d <= 0
    ensures m * d <= 0
  {
  }

  lemma RemainderUnique(m: int, q: int, r: int, q': int, r': int)
    requires 0 <= r < m && 0 <= r' < m && m * q + r == m * q' + r'
    ensures r == r' && q == q'
  {
    assert m * q - m * q' == r' - r;
    assert m * (q - q') == m * q - m * q';
    assert m * (q' - q) == m * q' - m * q;
    if q > q' { MulGrows(m, q - q'); } else if q' > q { MulGrows(m, q' - q); }
  }

  lemma ModSucc(k: nat, m: nat)
    requires m > 0
    ensures (k + 1) % m == if k % m == m - 1 then 0 else k % m + 1
  {
    var q, r := k / m, k % m;
    if r == m - 1 {
      assert m * (q + 1) == m * q + m;
      RemainderUnique(m, q + 1, 0, (k + 1) / m, (k + 1) % m);
    } else {
      RemainderUnique(m, q, r + 1, (k + 1) / m, (k + 1) % m);
    }
  }

  lemma SameResidueFarApart(a: nat, b: nat, m: nat)
    requires m > 0 && a < b && a % m == b % m
    ensures b - a >= m
  {
    var d := b / m - a / m;
    assert m * d == m * (b / m) - m * (a / m);
    if d >= 1 { MulGrows(m, d); } else { MulSmall(m, d); }
  }

  datatype TimerOp = AddOp(expiration: int) | EraseOp(id: nat) | ExpireOp(now: int)

  /** A queue together with how many adds it has seen and, for each live id, which add made it. */
  datatype Tracked = Tracked(t: Timers<()>, adds: nat, births: map<nat, nat>)

  const FRESH := Tracked(Timers([], 1), 0, map[])

  ghost function Step(s: Tracked, ids: int, op: TimerOp): Tracked
    requires ids > 1
  {
    match op
    case AddOp(x) =>
      var t' := Added(s.t, ids, x, ());
      Tracked(t', s.adds + 1,
              if HasId(s.t.events, Proposed(s.t)) then s.births else s.births[Proposed(s.t) := s.adds])
    case EraseOp(id) => s.(t := Erased(s.t, id), births := s.births - {id})
    case ExpireOp(now) =>
      var t' := Later(s.t, now);
      s.(t := t', births := map id | id in s.births && HasId(t'.events, id) :: s.births[id])
  }

  ghost function Run(s: Tracked, ids: int, ops: seq<TimerOp>): Tracked
    requires ids > 1
    decreases |ops|
  {
    if ops == [] then s else Run(Step(s, ids, ops[0]), ids, ops[1..])
  }

  ghost predicate Tracks(s: Tracked, ids: int)
    requires ids > 1
  {
    && WellFormed(s.t, ids)
    && Proposed(s.t) == 1 + s.adds % (ids - 1)
    && (forall id :: id in s.births <==> HasId(s.t.events, id))
    && (forall id <- s.births :: s.births[id] < s.adds && id == 1 + s.births[id] % (ids - 1))
  }

  lemma HasIdByMultiset<C>(es: seq<Event<C>>, id: nat)
    ensures HasId(es, id) <==> exists e :: e in multiset(es) && e.id == id
  {
    if HasId(es, id) {
      var i :| 0 <= i < |es| && es[i].id == id;
      assert es[i] in multiset(es);
    }
  }

  lemma PlacedIds<C>(es: seq<Event<C>>, e: Event<C>, id: nat)
    ensures HasId(Placed(es, e), id) <==> HasId(es, id) || id == e.id
  {
    HasIdByMultiset(Placed(es, e), id);
    HasIdByMultiset(es, id);
    assert e in multiset(Placed(es, e));
  }

  lemma AddIds<C>(t: Timers<C>, ids: int, x: int, callback: C, id: nat)
    requires ids > 1
    ensures HasId(Added(t, ids, x, callback).events, id) <==> HasId(t.events, id) || id == Proposed(t)
  {
    PlacedIds(t.events, Event(Proposed(t), x, callback), id);
  }

  lemma EraseIds<C>(t: Timers<C>, ids: int, gone: nat, id: nat)
    requires WellFormed(t, ids)
    ensures HasId(Erased(t, gone).events, id) <==> HasId(t.events, id) && id != gone
  {
    EraseRemoves(t, ids, gone);
    HasIdByMultiset(t.events, id);
    HasIdByMultiset(Erased(t, gone).events, id);
  }

  lemma LaterIds<C>(t: Timers<C>, now: int, id: nat)
    requires HasId(Later(t, now).events, id)
    ensures HasId(t.events, id)
  {
    var es := Later(t, now).events;
    var i :| 0 <= i < |es| && es[i].id == id;
    assert t.events[i + UpperBound(t.events, now)].id == id;
  }

  lemma AddTracks(s: Tracked, ids: int, x: int)
    requires ids > 2 && Tracks(s, ids)
    ensures Tracks(Step(s, ids, AddOp(x)), ids)
  {
    var s', id := Step(s, ids, AddOp(x)), Proposed(s.t);
    AddInserts(s.t, ids, x, ());
    ModSucc(s.adds, ids - 1);
    forall k ensures HasId(s'.t.events, k) <==> HasId(s.t.events, k) || k == id {
      AddIds(s.t, ids, x, (), k);
    }
    if HasId(s.t.events, id) { assert s'.births == s.births; }
  }

  lemma StepTracks(s: Tracked, ids: int, op: TimerOp)
    requires ids > 2 && Tracks(s, ids)
    ensures Tracks(Step(s, ids, op), ids)
  {
    match op
    case AddOp(x) =>
      AddTracks(s, ids, x);
    case EraseOp(id) =>
      EraseRemoves(s.t, ids, id);
      forall k ensures HasId(Erased(s.t, id).events, k) <==> HasId(s.t.events, k) && k != id {
        EraseIds(s.t, ids, id, k);
      }
    case ExpireOp(now) =>
      DueSplits(s.t, ids, now);
      forall id | HasId(Later(s.t, now).events, id) ensures HasId(s.t.events, id) {
        LaterIds(s.t, now, id);
      }
  }

  lemma {:induction false} RunTracks(s: Tracked, ids: int, ops: seq<TimerOp>)
    requires ids > 2 && Tracks(s, ids)
    ensures Tracks(Run(s, ids, ops), ids)
    decreases |ops|
  {
    if ops != [] {
      StepTracks(s, ids, ops[0]);
      RunTracks(Step(s, ids, ops[0]), ids, ops[1..]);
    }
  }

  /**
   Over every run from an empty queue, the k-th add (counting from 0) proposes id
   1 + k mod (ids - 1); it takes effect exactly when no live timer was made by an add
   with the same residue; and it always does when every live timer was made by one of
   the previous ids - 2 adds.
   */
  lemma WrappingIdsStayFresh(ids: int, ops: seq<TimerOp>, expiration: int)
    requires ids > 2
    ensures var s := Run(FRESH, ids, ops);
      var s' := Step(s, ids, AddOp(expiration));
      && Proposed(s.t) == 1 + s.adds % (ids - 1)
      && (|s'.t.events| == |s.t.events| + 1 <==>
            forall id <- s.births :: s.births[id] % (ids - 1) != s.adds % (ids - 1))
      && ((forall id <- s.births :: s.adds - s.births[id] <= ids - 2) ==>
            |s'.t.events| == |s.t.events| + 1)
  {
    var s := Run(FRESH, ids, ops);
    assert Tracks(FRESH, ids);
    RunTracks(FRESH, ids, ops);
    forall id | id in s.births && s.births[id] % (ids - 1) == s.adds % (ids - 1)
      ensures s.adds - s.births[id] > ids - 2
    {
      SameResidueFarApart(s.births[id], s.adds, ids - 1);
    }
    if HasId(s.t.events, Proposed(s.t)) {
      assert Proposed(s.t) in s.births;
    }
  }
}
