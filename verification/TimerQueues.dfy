/**
 The two classes built on the timer container: folly's TimeoutQueue (64-bit ids, a callback
 per event) and the shared-memory TimerQueue (32-bit ids, no callback).
 */
module TimerQueues {
  import opened Timers

  /** The two-index container: a unique index by id beside the order by expiration. */
  datatype Index<+C> = Index(byId: map<nat, Event<C>>, byExpiration: seq<Event<C>>)

  ghost predicate Agree<C>(ix: Index<C>) {
    && (forall id :: id in ix.byId <==> HasId(ix.byExpiration, id))
    && (forall i :: 0 <= i < |ix.byExpiration| ==>
          ix.byExpiration[i].id in ix.byId && ix.byId[ix.byExpiration[i].id] == ix.byExpiration[i])
  }

  function Insert<C>(ix: Index<C>, e: Event<C>): Index<C> {
    if e.id in ix.byId then ix
    else Index(ix.byId[e.id := e], Placed(ix.byExpiration, e))
  }

  function EraseById<C>(ix: Index<C>, id: nat): Index<C>
    requires id in ix.byId ==> HasId(ix.byExpiration, id)
  {
    if id !in ix.byId then ix
    else Index(ix.byId - {id}, RemoveAt(ix.byExpiration, IndexOf(ix.byExpiration, id)))
  }

  function EraseThrough<C>(ix: Index<C>, k: nat): Index<C>
    requires k <= |ix.byExpiration|
  {
    Index(ix.byId - (set i | 0 <= i < k :: ix.byExpiration[i].id), ix.byExpiration[k..])
  }

  lemma PlacedMembers<C>(es: seq<Event<C>>, e: Event<C>)
    ensures forall i :: 0 <= i < |Placed(es, e)| ==> Placed(es, e)[i] in es || Placed(es, e)[i] == e
  {
    var es' := Placed(es, e);
    forall i | 0 <= i < |es'| ensures es'[i] in es || es'[i] == e {
      assert es'[i] in multiset(es');
    }
  }

  lemma InsertFreshAgrees<C>(ix: Index<C>, e: Event<C>)
    requires Agree(ix) && e.id !in ix.byId
    ensures Agree(Index(ix.byId[e.id := e], Placed(ix.byExpiration, e)))
  {
    var es, es' := ix.byExpiration, Placed(ix.byExpiration, e);
    forall id ensures id in ix.byId[e.id := e] <==> HasId(es', id) {
      PlacedIds(es, e, id);
    }
    PlacedMembers(es, e);
  }

  /** Inserting under the proposed id is the abstract add, and keeps the indexes in step. */
  lemma InsertAgrees<C>(ix: Index<C>, ids: int, nextId: nat, e: Event<C>)
    requires ids > 1 && Agree(ix) && WellFormed(Timers(ix.byExpiration, nextId), ids)
    requires e.id == Proposed(Timers(ix.byExpiration, nextId))
    ensures Agree(Insert(ix, e))
    ensures var t' := Added(Timers(ix.byExpiration, nextId), ids, e.expiration, e.callback);
      t'.events == Insert(ix, e).byExpiration && WellFormed(t', ids)
  {
    AddInserts(Timers(ix.byExpiration, nextId), ids, e.expiration, e.callback);
    if e.id !in ix.byId {
      InsertFreshAgrees(ix, e);
    }
  }

  lemma EraseAgrees<C>(ix: Index<C>, ids: int, nextId: nat, id: nat)
    requires Agree(ix) && WellFormed(Timers(ix.byExpiration, nextId), ids)
    ensures Agree(EraseById(ix, id))
  {
    var t := Timers(ix.byExpiration, nextId);
    forall k ensures HasId(Erased(t, id).events, k) <==> HasId(t.events, k) && k != id {
      EraseIds(t, ids, id, k);
    }
  }

  lemma EraseThroughAgrees<C>(ix: Index<C>, k: nat)
    requires Agree(ix) && DistinctIds(ix.byExpiration) && k <= |ix.byExpiration|
    ensures Agree(EraseThrough(ix, k))
  {
    var es := ix.byExpiration;
    var ix' := EraseThrough(ix, k);
    forall id ensures id in ix'.byId <==> HasId(es[k..], id) {
      if id in ix'.byId {
        var i :| 0 <= i < |es| && es[i].id == id;
        assert k <= i && es[k..][i - k].id == id;
      }
    }
  }

  class TimeoutQueue<C> {
    var timeouts: Index<C>
    var nextId: nat

    ghost predicate Valid()
      reads this
    {
      Agree(timeouts) && WellFormed(Value(), IDS_64)
    }

    ghost function Value(): Timers<C>
      reads this
    {
      Timers(timeouts.byExpiration, nextId)
    }

    constructor ()
      ensures Valid() && Value() == Timers([], 1)
    {
      timeouts := Index(map[], []);
      nextId := 1;
    }

    predicate Empty()
      reads this
    {
      timeouts.byExpiration == []
    }

    function NextExpiration(): int
      reads this
    {
      if timeouts.byExpiration == [] then INT64_MAX else timeouts.byExpiration[0].expiration
    }

    method Add(now: int, delay: int, callback: C) returns (id: nat)
      requires Valid()
      modifies this
      ensures Valid()
      ensures id == Proposed(old(Value()))
      ensures Value() == Added(old(Value()), IDS_64, now + delay, callback)
    {
      InsertAgrees(timeouts, IDS_64, nextId, Event(Proposed(Value()), now + delay, callback));
      if nextId == 0 {
        nextId := 1;
      }
      id := nextId;
      nextId := if nextId + 1 == IDS_64 then 0 else nextId + 1;
      timeouts := Insert(timeouts, Event(id, now + delay, callback));
    }

    method Erase(id: nat) returns (erased: bool)
      requires Valid()
      modifies this
      ensures Valid()
      ensures erased <==> HasId(old(timeouts.byExpiration), id)
      ensures Value() == Erased(old(Value()), id)
    {
      EraseRemoves(Value(), IDS_64, id);
      EraseAgrees(timeouts, IDS_64, nextId, id);
      erased := id in timeouts.byId;
      timeouts := EraseById(timeouts, id);
    }

    /** The first half of runInternal: move the due events out, in order. */
    method TakeDue(now: int) returns (expired: seq<Event<C>>)
      requires Valid()
      modifies this
      ensures Valid()
      ensures expired == Due(old(Value()), now)
      ensures Value() == Later(old(Value()), now)
    {
      DueSplits(Value(), IDS_64, now);
      var end := UpperBound(timeouts.byExpiration, now);
      EraseThroughAgrees(timeouts, end);
      expired := timeouts.byExpiration[..end];
      timeouts := EraseThrough(timeouts, end);
    }
  }

  /** The shared-memory queue. Its caller supplies the absolute expiration. */
  class TimerQueue {
    var timers: Index<()>
    var nextId: nat

    ghost predicate Valid()
      reads this
    {
      Agree(timers) && WellFormed(Value(), IDS_32)
    }

    ghost function Value(): Timers<()>
      reads this
    {
      Timers(timers.byExpiration, nextId)
    }

    constructor ()
      ensures Valid() && Value() == FRESH.t
    {
      timers := Index(map[], []);
      nextId := 1;
    }

    method Add(expiration: int) returns (id: int)
      requires Valid()
      modifies this
      ensures Valid()
      ensures id == Proposed(old(Value()))
      ensures Value() == Added(old(Value()), IDS_32, expiration, ())
    {
      InsertAgrees(timers, IDS_32, nextId, Event(Proposed(Value()), expiration, ()));
      if nextId == 0 {
        nextId := 1;
      }
      id := nextId;
      nextId := if nextId + 1 == IDS_32 then 0 else nextId + 1;
      timers := Insert(timers, Event(id, expiration, ()));
    }

    method Erase(id: nat) returns (erased: bool)
      requires Valid()
      modifies this
      ensures Valid()
      ensures erased <==> HasId(old(timers.byExpiration), id)
      ensures Value() == Erased(old(Value()), id)
    {
      EraseRemoves(Value(), IDS_32, id);
      EraseAgrees(timers, IDS_32, nextId, id);
      erased := id in timers.byId;
      timers := EraseById(timers, id);
    }

    /** Appends the due timers to `items` and returns the next expiration. */
    method GetExpirationTimer(now: int, items: seq<Event<()>>) returns (next: int, items': seq<Event<()>>)
      requires Valid()
      modifies this
      ensures Valid()
      ensures items' == items + Due(old(Value()), now)
      ensures Value() == Later(old(Value()), now)
      ensures next == Soonest(Value())
      ensures forall e <- items'[|items|..] :: e.expiration <= now
      ensures timers.byExpiration != [] ==> now < next
      ensures multiset(old(timers.byExpiration)) == multiset(items'[|items|..]) + multiset(timers.byExpiration)
    {
      DueSplits(Value(), IDS_32, now);
      var end := UpperBound(timers.byExpiration, now);
      EraseThroughAgrees(timers, end);
      assert timers.byExpiration == timers.byExpiration[..end] + timers.byExpiration[end..];
      items' := items + timers.byExpiration[..end];
      timers := EraseThrough(timers, end);
      next := if timers.byExpiration == [] then INT64_MAX else timers.byExpiration[0].expiration;
      assert items'[|items|..] == Due(old(Value()), now);
    }
  }
}
