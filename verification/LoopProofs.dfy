/** What every run of the loop keeps, however its callbacks call back into it. */
module LoopProofs {
  import opened Common
  import opened Timers
  import opened LoopModel

  /**
   The accounts that hold between any two commands, with `rest` the tasks of the swapped-out
   batch still to run and `batch` the due events still to fire.
   */
  ghost predicate Accounted(w: World, rest: seq<Task>, batch: seq<Event<Script>>) {
    && WellFormed(w.timers, IDS_64)
    && (!w.aborted ==>
          && w.handleNum == Occupied(w.slots)
          && w.trace.posted == w.trace.ran + rest + w.callbacks
          && Conserved(w, batch)
          && NeverEarly(w.trace)
          && (w.trace.adds < IDS_64 ==> IssuedInOrder(w)))
  }

  /** Every event ever added is pending, in the current batch, fired or erased: no other fate. */
  ghost predicate Conserved(w: World, batch: seq<Event<Script>>) {
    multiset(w.trace.added) ==
    multiset(w.timers.events) + multiset(batch) + multiset(w.trace.fired) + multiset(w.trace.erased)
  }

  ghost predicate NeverEarly(tr: Trace) {
    && |tr.fired| == |tr.firedAt|
    && forall i :: 0 <= i < |tr.fired| ==> tr.fired[i].expiration <= tr.firedAt[i]
  }

  /** Until the 64-bit counter wraps, ids count up from one and no insert is refused. */
  ghost predicate IssuedInOrder(w: World) {
    && |w.trace.added| == w.trace.adds
    && (forall i :: 0 <= i < |w.trace.added| ==> w.trace.added[i].id == i + 1)
    && w.timers.nextId == (if w.trace.adds == IDS_64 - 1 then 0 else w.trace.adds + 1)
  }

  // ---------------------------------------------------------------- one command

  lemma {:induction false} OccupiedUpdate(slots: seq<Option<Handler>>, i: nat, h: Option<Handler>)
    requires i < |slots|
    ensures Occupied(slots[i := h]) ==
      Occupied(slots) - (if slots[i].Some? then 1 else 0) + (if h.Some? then 1 else 0)
  {
    if i == 0 {
      assert slots[i := h][1..] == slots[1..];
    } else {
      OccupiedUpdate(slots[1..], i - 1, h);
      assert slots[i := h][1..] == slots[1..][i - 1 := h];
    }
  }

  /** In an accounted world with ids left, the proposed id is not in use. */
  lemma ProposedIsFree(w: World, rest: seq<Task>, batch: seq<Event<Script>>)
    requires Accounted(w, rest, batch) && !w.aborted && w.trace.adds + 1 < IDS_64
    ensures !HasId(w.timers.events, Proposed(w.timers)) && Proposed(w.timers) == w.trace.adds + 1
  {
    forall e | e in w.timers.events ensures e.id <= w.trace.adds {
      assert e in multiset(w.timers.events);
      assert e in multiset(w.trace.added);
    }
  }

  lemma AfterAdd(w: World, t: Timers<Script>, added: seq<Event<Script>>, rest: seq<Task>, batch: seq<Event<Script>>)
    requires Accounted(w, rest, batch) && !w.aborted && WellFormed(t, IDS_64)
    requires multiset(t.events) == multiset(w.timers.events) + multiset(added)
    requires w.trace.adds + 1 < IDS_64 ==>
      && |added| == 1 && added[0].id == w.trace.adds + 1
      && t.nextId == if w.trace.adds + 2 == IDS_64 then 0 else w.trace.adds + 2
    ensures Accounted(WithAdd(w, t, added), rest, batch)
  {
    var w' := WithAdd(w, t, added);
    assert Conserved(w', batch);
    assert w'.trace.adds < IDS_64 ==> IssuedInOrder(w');
  }

  lemma AddTimeoutKeeps(w: World, cmd: Cmd, rest: seq<Task>, batch: seq<Event<Script>>)
    requires Accounted(w, rest, batch) && !w.aborted && cmd.AddTimeout?
    ensures Accounted(Exec(w, cmd), rest, batch)
  {
    var x, cb := cmd.now + cmd.delay, cmd.callback;
    AddInserts(w.timers, IDS_64, x, cb);
    if w.trace.adds + 1 < IDS_64 { ProposedIsFree(w, rest, batch); }
    AfterAdd(w, Added(w.timers, IDS_64, x, cb), Inserted(w.timers, x, cb), rest, batch);
  }

  lemma AfterErase(w: World, t: Timers<Script>, e: Event<Script>, rest: seq<Task>, batch: seq<Event<Script>>)
    requires Accounted(w, rest, batch) && !w.aborted && WellFormed(t, IDS_64) && t.nextId == w.timers.nextId
    requires multiset(w.timers.events) == multiset(t.events) + multiset{e}
    ensures Accounted(w.(timers := t, trace := w.trace.(erased := w.trace.erased + [e])), rest, batch)
  {
    var w' := w.(timers := t, trace := w.trace.(erased := w.trace.erased + [e]));
    assert Conserved(w', batch);
    assert w'.trace.adds < IDS_64 ==> IssuedInOrder(w');
  }

  lemma RemoveTimeoutKeeps(w: World, cmd: Cmd, rest: seq<Task>, batch: seq<Event<Script>>)
    requires Accounted(w, rest, batch) && !w.aborted && cmd.RemoveTimeout?
    ensures Accounted(Exec(w, cmd), rest, batch)
  {
    EraseRemoves(w.timers, IDS_64, cmd.id);
    if HasId(w.timers.events, cmd.id) {
      var e := w.timers.events[IndexOf(w.timers.events, cmd.id)];
      AfterErase(w, Erased(w.timers, cmd.id), e, rest, batch);
    }
  }

  lemma AddHandlerKeeps(w: World, cmd: Cmd, rest: seq<Task>, batch: seq<Event<Script>>)
    requires Accounted(w, rest, batch) && !w.aborted && cmd.AddHandler?
    ensures Accounted(Exec(w, cmd), rest, batch)
  {
    if InRange(cmd.fd, |w.slots|) {
      OccupiedUpdate(w.slots, cmd.fd, Some(Handler(cmd.interest.Union(ERROR), cmd.callback)));
    }
  }

  lemma UpdateHandlerKeeps(w: World, cmd: Cmd, rest: seq<Task>, batch: seq<Event<Script>>)
    requires Accounted(w, rest, batch) && !w.aborted && cmd.UpdateHandler?
    ensures Accounted(Exec(w, cmd), rest, batch)
  {
    var fd := cmd.fd;
    if InRange(fd, |w.slots|) && w.slots[fd].Some? {
      OccupiedUpdate(w.slots, fd, Some(w.slots[fd].value.(interest := cmd.interest.Union(ERROR))));
    }
  }

  lemma RemoveHandlerKeeps(w: World, cmd: Cmd, rest: seq<Task>, batch: seq<Event<Script>>)
    requires Accounted(w, rest, batch) && !w.aborted && cmd.RemoveHandler?
    ensures Accounted(Exec(w, cmd), rest, batch)
  {
    if InRange(cmd.fd, |w.slots|) { OccupiedUpdate(w.slots, cmd.fd, None); }
  }

  lemma PostKeeps(w: World, task: Task, rest: seq<Task>, batch: seq<Event<Script>>)
    requires Accounted(w, rest, batch) && !w.aborted
    ensures Accounted(Post(w, task), rest, batch)
  {
    var tr := w.trace;
    assert tr.ran + rest + (w.callbacks + [task]) == tr.ran + rest + w.callbacks + [task];
  }

  lemma AddCallbackKeeps(w: World, cmd: Cmd, rest: seq<Task>, batch: seq<Event<Script>>)
    requires Accounted(w, rest, batch) && !w.aborted && (cmd.AddCallback? || cmd.Stop? || cmd.Enter?)
    ensures Accounted(Exec(w, cmd), rest, batch)
  {
    if cmd.AddCallback? { PostKeeps(w, Task(Plain, cmd.callback), rest, batch); }
  }

  /** Every command a callback can issue keeps the accounts. */
  lemma ExecKeeps(w: World, cmd: Cmd, rest: seq<Task>, batch: seq<Event<Script>>)
    requires Accounted(w, rest, batch)
    ensures Accounted(Exec(w, cmd), rest, batch)
  {
    if !w.aborted {
      match cmd
      case AddTimeout(_, _, _) => AddTimeoutKeeps(w, cmd, rest, batch);
      case RemoveTimeout(_) => RemoveTimeoutKeeps(w, cmd, rest, batch);
      case AddHandler(_, _, _) => AddHandlerKeeps(w, cmd, rest, batch);
      case UpdateHandler(_, _) => UpdateHandlerKeeps(w, cmd, rest, batch);
      case RemoveHandler(_) => RemoveHandlerKeeps(w, cmd, rest, batch);
      case _ => AddCallbackKeeps(w, cmd, rest, batch);
    }
  }

  lemma {:induction false} RunCmdsKeeps(w: World, cmds: seq<Cmd>, rest: seq<Task>, batch: seq<Event<Script>>)
    requires Accounted(w, rest, batch)
    ensures Accounted(RunCmds(w, cmds), rest, batch)
    decreases |cmds|
  {
    if cmds != [] {
      ExecKeeps(w, cmds[0], rest, batch);
      RunCmdsKeeps(Exec(w, cmds[0]), cmds[1..], rest, batch);
    }
  }

  // ------------------------------------------------------------- deferred callbacks

  lemma RunTaskKeeps(w: World, tasks: seq<Task>, batch: seq<Event<Script>>)
    requires tasks != [] && Accounted(w, tasks, batch)
    ensures Accounted(RunTask(w, tasks[0]), tasks[1..], batch)
  {
    if !w.aborted {
      var tr := w.trace;
      var w1 := w.(trace := tr.(ran := tr.ran + [tasks[0]]));
      assert tr.ran + tasks + w.callbacks == (tr.ran + [tasks[0]]) + tasks[1..] + w.callbacks;
      RunCmdsKeeps(w1, tasks[0].callback.cmds, tasks[1..], batch);
    }
  }

  /**
   Running the swapped-out batch: at every point the tasks already run, the rest of the batch
   and the newly posted ones make up the posting order exactly.
   */
  lemma {:induction false} RunTasksKeeps(w: World, tasks: seq<Task>, batch: seq<Event<Script>>)
    requires Accounted(w, tasks, batch)
    ensures Accounted(RunTasks(w, tasks), [], batch)
    decreases |tasks|
  {
    if tasks != [] {
      RunTaskKeeps(w, tasks, batch);
      RunTasksKeeps(RunTask(w, tasks[0]), tasks[1..], batch);
    }
  }

  lemma {:induction false} RunCmdsTrace(w: World, cmds: seq<Cmd>)
    ensures RunCmds(w, cmds).trace.ran == w.trace.ran
    ensures RunCmds(w, cmds).trace.fired == w.trace.fired
    ensures RunCmds(w, cmds).trace.firedAt == w.trace.firedAt
    ensures w.callbacks <= RunCmds(w, cmds).callbacks
    ensures w.trace.posted <= RunCmds(w, cmds).trace.posted
    ensures w.aborted ==> RunCmds(w, cmds) == w
    decreases |cmds|
  {
    if cmds != [] { RunCmdsTrace(Exec(w, cmds[0]), cmds[1..]); }
  }

  /** A batch runs its tasks once each, in order; what they post waits behind `callbacks`. */
  lemma {:induction false} BatchRunsInOrder(w: World, tasks: seq<Task>)
    ensures var w' := RunTasks(w, tasks);
      && w.callbacks <= w'.callbacks
      && (!w'.aborted ==> w'.trace.ran == w.trace.ran + tasks)
      && (w.aborted ==> w'.aborted)
    decreases |tasks|
  {
    if tasks != [] {
      var task := tasks[0];
      if !w.aborted {
        RunCmdsTrace(w.(trace := w.trace.(ran := w.trace.ran + [task])), task.callback.cmds);
      }
      BatchRunsInOrder(RunTask(w, task), tasks[1..]);
      assert w.trace.ran + [task] + tasks[1..] == w.trace.ran + tasks;
    }
  }

  // ----------------------------------------------------------------------- timers

  lemma FireKeeps(w: World, batch: seq<Event<Script>>, now: int, rest: seq<Task>)
    requires batch != [] && Accounted(w, rest, batch) && batch[0].expiration <= now
    ensures Accounted(Fire(w, batch[0], now), rest, batch[1..])
  {
    if !w.aborted {
      var tr := w.trace;
      var w1 := w.(trace := tr.(fired := tr.fired + [batch[0]], firedAt := tr.firedAt + [now]));
      assert batch == [batch[0]] + batch[1..];
      assert Conserved(w1, batch[1..]);
      RunCmdsKeeps(w1, batch[0].callback.cmds, rest, batch[1..]);
    }
  }

  lemma {:induction false} FireAllKeeps(w: World, batch: seq<Event<Script>>, now: int, rest: seq<Task>)
    requires Accounted(w, rest, batch) && forall e <- batch :: e.expiration <= now
    ensures Accounted(FireAll(w, batch, now), rest, [])
    decreases |batch|
  {
    if batch != [] {
      FireKeeps(w, batch, now, rest);
      FireAllKeeps(Fire(w, batch[0], now), batch[1..], now, rest);
    }
  }

  lemma TakeDueKeeps(w: World, now: int, rest: seq<Task>)
    requires Accounted(w, rest, [])
    ensures Accounted(w.(timers := Later(w.timers, now)), rest, Due(w.timers, now))
  {
    DueSplits(w.timers, IDS_64, now);
  }

  lemma RunOnceKeeps(w: World, now: int, rest: seq<Task>)
    requires Accounted(w, rest, [])
    ensures Accounted(RunOnce(w, now), rest, [])
  {
    DueSplits(w.timers, IDS_64, now);
    TakeDueKeeps(w, now, rest);
    FireAllKeeps(w.(timers := Later(w.timers, now)), Due(w.timers, now), now, rest);
  }

  lemma {:induction false} RunLoopKeeps(w: World, now: int, rest: seq<Task>)
    requires Accounted(w, rest, []) && now < INT64_MAX
    ensures Accounted(RunLoop(w, now), rest, [])
    decreases Weight(w.timers.events)
  {
    var w' := RunOnce(w, now);
    RunOnceKeeps(w, now, rest);
    if !(w'.aborted || now < Soonest(w'.timers)) {
      assert Due(w.timers, now) != [];
      RunOnceLightens(w, now);
      RunLoopKeeps(w', now, rest);
    }
  }

  lemma {:induction false} FireAllFires(w: World, batch: seq<Event<Script>>, now: int)
    ensures var w' := FireAll(w, batch, now);
      && (!w'.aborted ==> w'.trace.fired == w.trace.fired + batch)
      && (w.aborted ==> w' == w)
    decreases |batch|
  {
    if batch != [] {
      var e := batch[0];
      if !w.aborted {
        RunCmdsTrace(w.(trace := w.trace.(fired := w.trace.fired + [e], firedAt := w.trace.firedAt + [now])),
                     e.callback.cmds);
      }
      FireAllFires(Fire(w, e, now), batch[1..], now);
      assert w.trace.fired + [e] + batch[1..] == w.trace.fired + batch;
    }
  }

  /**
   runOnce fires exactly the events that were due at entry, in order of expiration, whatever
   its callbacks add or erase; and what it returns is the minimum of the resulting queue.
   */
  lemma RunOnceIsExact(w: World, now: int, rest: seq<Task>)
    requires Accounted(w, rest, []) && !RunOnce(w, now).aborted
    ensures var w' := RunOnce(w, now);
      && w.trace.fired <= w'.trace.fired
      && (var newly := w'.trace.fired[|w.trace.fired|..];
          && Sorted(newly) && DistinctIds(newly)
          && forall e :: e in newly <==> e in w.timers.events && e.expiration <= now)
      && (forall e <- w'.timers.events :: Soonest(w'.timers) <= e.expiration)
      && (w'.timers.events != [] ==> exists e <- w'.timers.events :: e.expiration == Soonest(w'.timers))
  {
    var w' := RunOnce(w, now);
    DueSplits(w.timers, IDS_64, now);
    FireAllFires(w.(timers := Later(w.timers, now)), Due(w.timers, now), now);
    assert w'.trace.fired[|w.trace.fired|..] == Due(w.timers, now);
    RunOnceKeeps(w, now, rest);
    if w'.timers.events != [] { SoonestIsMinimum(w'.timers, IDS_64); }
  }

  /** While a batch fires, erasing one of its members is refused and changes nothing. */
  lemma BatchMembersCannotBeErased(w: World, rest: seq<Task>, batch: seq<Event<Script>>, e: Event<Script>)
    requires Accounted(w, rest, batch) && !w.aborted && w.trace.adds < IDS_64 && e in batch
    ensures Exec(w, RemoveTimeout(e.id)) == w
  {
    if HasId(w.timers.events, e.id) {
      var i :| 0 <= i < |w.timers.events| && w.timers.events[i].id == e.id;
      AddedOnce(w, rest, batch, e);
      AddedOnce(w, rest, batch, w.timers.events[i]);
      assert e in multiset(batch) && w.timers.events[i] in multiset(w.timers.events);
      SameIdSameEvent(w, e, w.timers.events[i]);
    }
  }

  lemma SameIdSameEvent(w: World, e: Event<Script>, f: Event<Script>)
    requires IssuedInOrder(w) && e in w.trace.added && f in w.trace.added && e.id == f.id
    ensures e == f
  {
  }

  lemma {:induction false} OnceInSequence<T>(s: seq<T>, e: T)
    requires e in s && forall i, j :: 0 <= i < j < |s| ==> s[i] != s[j]
    ensures multiset(s)[e] == 1
  {
    var i :| 0 <= i < |s| && s[i] == e;
    assert s == s[..i] + [e] + s[i + 1..];
  }

  lemma AddedOnce(w: World, rest: seq<Task>, batch: seq<Event<Script>>, e: Event<Script>)
    requires Accounted(w, rest, batch) && !w.aborted && w.trace.adds < IDS_64
    requires e in w.timers.events || e in batch || e in w.trace.added
    ensures e in w.trace.added && multiset(w.trace.added)[e] == 1
  {
    assert e in multiset(w.trace.added) by {
      if e in w.timers.events { assert e in multiset(w.timers.events); }
      if e in batch { assert e in multiset(batch); }
    }
    OnceInSequence(w.trace.added, e);
  }

  /**
   Conservation: until the 64-bit counter wraps, every event ever added is in exactly one
   place, once: pending, in the firing batch, fired, or erased. So an erased timer never
   fires, and none fires twice.
   */
  lemma ExactlyOneFate(w: World, rest: seq<Task>, batch: seq<Event<Script>>, e: Event<Script>)
    requires Accounted(w, rest, batch) && !w.aborted && w.trace.adds < IDS_64 && e in w.trace.added
    ensures multiset(w.timers.events)[e] + multiset(batch)[e]
          + multiset(w.trace.fired)[e] + multiset(w.trace.erased)[e] == 1
    ensures e in w.trace.erased ==> e !in w.trace.fired && e !in w.timers.events && e !in batch
  {
    AddedOnce(w, rest, batch, e);
    if e in w.trace.erased {
      assert e in multiset(w.trace.erased);
      assert e in w.trace.fired ==> e in multiset(w.trace.fired);
      assert e in w.timers.events ==> e in multiset(w.timers.events);
      assert e in batch ==> e in multiset(batch);
    }
  }

  /** runLoop ends with nothing due, and fires everything that was due at entry. */
  lemma OncePassed(w: World, now: int, rest: seq<Task>)
    requires Accounted(w, rest, []) && !RunOnce(w, now).aborted
    ensures RunOnce(w, now).trace.fired == w.trace.fired + Due(w.timers, now)
    ensures now < Soonest(RunOnce(w, now).timers) ==> AllAfter(RunOnce(w, now).timers.events, now)
  {
    RunOnceKeeps(w, now, rest);
    FireAllFires(w.(timers := Later(w.timers, now)), Due(w.timers, now), now);
    var t := RunOnce(w, now).timers;
    if t.events != [] { SoonestIsMinimum(t, IDS_64); }
  }

  lemma {:induction false} RunLoopLeavesNothingDue(w: World, now: int, rest: seq<Task>)
    requires Accounted(w, rest, []) && now < INT64_MAX
    ensures var w' := RunLoop(w, now);
      !w'.aborted ==>
        && (forall e <- w'.timers.events :: e.expiration > now)
        && w.trace.fired + Due(w.timers, now) <= w'.trace.fired
    decreases Weight(w.timers.events)
  {
    hide RunOnce;
    var w' := RunOnce(w, now);
    RunOnceKeeps(w, now, rest);
    if !w'.aborted {
      OncePassed(w, now, rest);
      if Soonest(w'.timers) <= now {
        RunLoopStep(w, now);
        RunLoopLeavesNothingDue(w', now, rest);
      }
    }
  }

  /**
   The largest clock value: with it the guard of runLoop never fails, since every expiration, and
   the one reported for an empty queue, is at most that. At any lower value it can.
   */
  lemma GuardAlwaysHoldsIff(now: int)
    ensures (forall t: Timers<Script> :: (forall e <- t.events :: e.expiration <= INT64_MAX) ==> Soonest(t) <= now)
            <==> INT64_MAX <= now
  {
    if now < INT64_MAX {
      var empty: Timers<Script> := Timers([], 1);
      assert Soonest(empty) > now;
    }
    forall t: Timers<Script> | INT64_MAX <= now && (forall e <- t.events :: e.expiration <= INT64_MAX)
      ensures Soonest(t) <= now
    {
      if t.events != [] { assert t.events[0] in t.events; }
    }
  }

  // ------------------------------------------------- re-adds strictly in the future

  ghost predicate AllAfter(es: seq<Event<Script>>, now: int) {
    forall e <- es :: e.expiration > now
  }

  ghost predicate AddsAfter(cmds: seq<Cmd>, now: int) {
    forall c <- cmds :: c.AddTimeout? ==> c.now + c.delay > now
  }

  lemma ExecAfter(w: World, cmd: Cmd, now: int)
    requires AllAfter(w.timers.events, now) && AddsAfter([cmd], now)
    ensures AllAfter(Exec(w, cmd).timers.events, now)
  {
    assert cmd in [cmd];
    var es, es' := w.timers.events, Exec(w, cmd).timers.events;
    forall e | e in es' ensures e.expiration > now {
      assert e in multiset(es');
      match cmd
      case AddTimeout(t, d, cb) =>
        assert e in multiset(es) || e == Event(Proposed(w.timers), t + d, cb);
      case RemoveTimeout(id) =>
        assert e in multiset(es);
      case _ =>
    }
  }

  lemma {:induction false} RunCmdsAfter(w: World, cmds: seq<Cmd>, now: int)
    requires AllAfter(w.timers.events, now) && AddsAfter(cmds, now)
    ensures AllAfter(RunCmds(w, cmds).timers.events, now)
    decreases |cmds|
  {
    if cmds != [] {
      ExecAfter(w, cmds[0], now);
      RunCmdsAfter(Exec(w, cmds[0]), cmds[1..], now);
    }
  }

  lemma {:induction false} FireAllAfter(w: World, batch: seq<Event<Script>>, now: int)
    requires AllAfter(w.timers.events, now) && forall e <- batch :: AddsAfter(e.callback.cmds, now)
    ensures AllAfter(FireAll(w, batch, now).timers.events, now)
    decreases |batch|
  {
    if batch != [] {
      if !w.aborted {
        RunCmdsAfter(w.(trace := w.trace.(fired := w.trace.fired + [batch[0]], firedAt := w.trace.firedAt + [now])),
                     batch[0].callback.cmds, now);
      }
      FireAllAfter(Fire(w, batch[0], now), batch[1..], now);
    }
  }

  /** When every re-add of a due callback lies strictly in the future, one pass is enough. */
  lemma OnePassSuffices(w: World, now: int, rest: seq<Task>)
    requires Accounted(w, rest, []) && now < INT64_MAX
    requires forall e <- Due(w.timers, now) :: AddsAfter(e.callback.cmds, now)
    ensures RunLoop(w, now) == RunOnce(w, now)
    ensures AllAfter(RunOnce(w, now).timers.events, now)
  {
    DueSplits(w.timers, IDS_64, now);
    FireAllAfter(w.(timers := Later(w.timers, now)), Due(w.timers, now), now);
    var w' := RunOnce(w, now);
    assert now < Soonest(w'.timers);
  }

  // ------------------------------------------------------------------ the main loop

  lemma {:induction false} DispatchKeeps(w: World, ready: seq<int>)
    requires Accounted(w, [], [])
    ensures Accounted(Dispatch(w, ready), [], [])
    decreases |ready|
  {
    if ready != [] {
      var fd := ready[0];
      if !w.aborted && InRange(fd, |w.slots|) && w.slots[fd].Some? {
        RunCmdsKeeps(w, w.slots[fd].value.callback.cmds, [], []);
      }
      DispatchKeeps(DispatchOne(w, fd), ready[1..]);
    }
  }

  lemma RunCallbacksKeeps(w: World)
    requires Accounted(w, [], [])
    ensures Accounted(RunCallbacks(w), [], [])
  {
    var w0 := w.(callbacks := []);
    assert w.trace.ran + [] + w.callbacks == w.trace.ran + w.callbacks + [];
    assert Accounted(w0, w.callbacks, []);
    RunTasksKeeps(w0, w.callbacks, []);
  }

  lemma TurnKeeps(w: World, tick: Tick)
    requires Accounted(w, [], [])
    ensures Accounted(Turn(w, tick).0, [], [])
    ensures Turn(w, tick).1 != Going ==> ExitOf(Turn(w, tick).0) == Turn(w, tick).1
  {
    RunCallbacksKeeps(w);
    RunOnceKeeps(RunCallbacks(w), tick.timerNow, []);
    DispatchKeeps(RunTimers(RunCallbacks(w), tick.timerNow), tick.ready);
  }

  /** The accounts hold after any number of iterations, whatever the outside supplies. */
  lemma {:induction false} TurnsKeep(w: World, ticks: seq<Tick>)
    requires Accounted(w, [], [])
    ensures Accounted(Turns(w, ticks).0, [], [])
    ensures Turns(w, ticks).1 != Going ==> ExitOf(Turns(w, ticks).0) == Turns(w, ticks).1
    decreases |ticks|
  {
    if ticks != [] {
      TurnKeeps(w, ticks[0]);
      if Turn(w, ticks[0]).1 == Going { TurnsKeep(Turn(w, ticks[0]).0, ticks[1..]); }
    }
  }

  lemma {:induction false} NoneOccupied(slots: seq<Option<Handler>>)
    ensures Occupied(slots) == 0 <==> forall i :: 0 <= i < |slots| ==> slots[i].None?
  {
    if slots != [] {
      NoneOccupied(slots[1..]);
      if forall i :: 0 <= i < |slots| ==> slots[i].None? {
        assert slots[0].None?;
        forall i | 0 <= i < |slots[1..]| ensures slots[1..][i].None? { assert slots[i + 1].None?; }
      } else {
        var i :| 0 <= i < |slots| && slots[i].Some?;
        if i > 0 { assert slots[1..][i - 1].Some?; }
      }
    }
  }

  /**
   An idle exit leaves nothing behind: no handler, every posted callback run in posting order,
   every timer fired or erased. The running flag stays set.
   */
  lemma IdleExitLeavesNothing(w: World, ticks: seq<Tick>)
    requires Accounted(w, [], []) && Turns(w, ticks).1 == Exhausted
    ensures var w' := Turns(w, ticks).0;
      && (forall i :: 0 <= i < |w'.slots| ==> w'.slots[i].None?)
      && w'.trace.ran == w'.trace.posted
      && multiset(w'.trace.added) == multiset(w'.trace.fired) + multiset(w'.trace.erased)
      && w'.timers.events == [] && w'.running
  {
    TurnsKeep(w, ticks);
    NoneOccupied(Turns(w, ticks).0.slots);
  }

  /** The least of a minute and the times to the pending expirations, and nothing when there is work. */
  ghost predicate SleepsFor(w: World, now: int, t: int) {
    && 0 <= t <= 60 * 1000
    && (t == 0 <==> w.callbacks != [] || exists e <- w.timers.events :: e.expiration <= now)
    && (forall e <- w.timers.events :: e.expiration > now ==> now + t <= e.expiration)
    && (t == 0 || t == 60 * 1000 || exists e <- w.timers.events :: e.expiration == now + t)
  }

  /** That is how long the poll may sleep. */
  lemma PollTimeoutIsSafe(w: World, now: int)
    requires WellFormed(w.timers, IDS_64) && 0 <= now && now + POLL_LIMIT <= INT64_MAX
    ensures SleepsFor(w, now, PollTimeout(w, now))
  {
    if w.timers.events != [] { SoonestIsMinimum(w.timers, IDS_64); }
  }

  // -------------------------------------------------------- work done outside scripts

  function Holds(slots: seq<Option<Handler>>, fd: int): int {
    if InRange(fd, |slots|) && slots[fd].Some? then 1 else 0
  }

  /** From one world to another by posting tasks and changing at most the slot of one descriptor. */
  ghost predicate PostsAndHolds(w: World, w': World, fd: int, more: seq<Task>) {
    && w'.timers == w.timers && w'.aborted == w.aborted && |w'.slots| == |w.slots|
    && w'.callbacks == w.callbacks + more && w'.trace == w.trace.(posted := w.trace.posted + more)
    && w'.handleNum - Holds(w'.slots, fd) == w.handleNum - Holds(w.slots, fd)
    && forall i :: 0 <= i < |w.slots| && (i != fd || i < MIN_FD) ==> w'.slots[i] == w.slots[i]
  }

  /** Such work keeps every account of the loop, in the middle of any batch. */
  lemma PostsAndHoldsKeeps(w: World, w': World, fd: int, more: seq<Task>, rest: seq<Task>, batch: seq<Event<Script>>)
    requires Accounted(w, rest, batch) && PostsAndHolds(w, w', fd, more)
    ensures Accounted(w', rest, batch)
  {
    if !w.aborted {
      ConcatAssoc(w.trace.ran + rest, w.callbacks, more);
      if InRange(fd, |w.slots|) {
        OccupiedUpdate(w.slots, fd, w'.slots[fd]);
        assert w'.slots == w.slots[fd := w'.slots[fd]];
      } else {
        assert w'.slots == w.slots;
      }
      assert Conserved(w', batch);
    }
  }
}
