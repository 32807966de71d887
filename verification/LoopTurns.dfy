/**
 What one iteration of the loop does, by the calls its callbacks make: those of the callbacks posted
 before it, then those of the timers due, then those of the handlers its poll found ready.
 */
module LoopTurns {
  import opened Common
  import opened Timers
  import opened LoopModel
  import opened LoopProofs

  // -------------------------------------------------------------- what a script does

  /** The tasks these calls post. */
  function Posts(cmds: seq<Cmd>): seq<Task> {
    if cmds == [] then []
    else (if cmds[0].AddCallback? then [Task(Plain, cmds[0].callback)] else []) + Posts(cmds[1..])
  }

  datatype Timeout = Timeout(expiration: int, callback: Script)

  /** The timers they ask for. */
  function Timeouts(cmds: seq<Cmd>): seq<Timeout> {
    if cmds == [] then []
    else (if cmds[0].AddTimeout? then [Timeout(cmds[0].now + cmds[0].delay, cmds[0].callback)] else [])
         + Timeouts(cmds[1..])
  }

  /** The calls that name this descriptor. */
  predicate Names(cmd: Cmd, fd: int) {
    (cmd.AddHandler? || cmd.UpdateHandler? || cmd.RemoveHandler?) && cmd.fd == fd
  }

  /** What they make of the slot of one descriptor: it is the last of the calls naming it that counts. */
  function SlotAfter(fd: int, slot: Option<Handler>, cmds: seq<Cmd>): Option<Handler> {
    if cmds == [] then slot
    else
      var before, last := SlotAfter(fd, slot, cmds[..|cmds| - 1]), cmds[|cmds| - 1];
      if !Names(last, fd) then before
      else
        match last
        case AddHandler(_, interest, callback) => Some(Handler(interest.Union(ERROR), callback))
        case UpdateHandler(_, interest) =>
          if before.None? then None else Some(Handler(interest.Union(ERROR), before.value.callback))
        case _ => None
  }

  lemma {:induction false} RunCmdsConcat(w: World, a: seq<Cmd>, b: seq<Cmd>)
    ensures RunCmds(w, a + b) == RunCmds(RunCmds(w, a), b)
    decreases |a|
  {
    hide Exec;
    if a == [] {
      assert a + b == b;
    } else {
      assert (a + b)[1..] == a[1..] + b;
      RunCmdsConcat(Exec(w, a[0]), a[1..], b);
    }
  }

  lemma AbortedStays(w: World, cmds: seq<Cmd>)
    ensures w.aborted ==> RunCmds(w, cmds) == w
  {
    RunCmdsTrace(w, cmds);
  }

  lemma ExecPosts(w: World, cmd: Cmd)
    requires !Exec(w, cmd).aborted
    ensures var w' := Exec(w, cmd);
      && w'.callbacks == w.callbacks + Posts([cmd]) && w'.trace.posted == w.trace.posted + Posts([cmd])
      && (w'.running <==> w.running && cmd != Stop) && |w'.slots| == |w.slots|
      && w'.trace.adds == w.trace.adds + |Timeouts([cmd])|
  {
    assert Posts([cmd]) == if cmd.AddCallback? then [Task(Plain, cmd.callback)] else [];
    assert w.callbacks + [] == w.callbacks && w.trace.posted + [] == w.trace.posted;
  }

  lemma {:induction false} PostsConcat(a: seq<Cmd>, b: seq<Cmd>)
    ensures Posts(a + b) == Posts(a) + Posts(b)
    decreases |a|
  {
    if a == [] {
      assert a + b == b;
    } else {
      assert (a + b)[0] == a[0] && (a + b)[1..] == a[1..] + b;
      PostsConcat(a[1..], b);
      var first := if a[0].AddCallback? then [Task(Plain, a[0].callback)] else [];
      ConcatAssoc(first, Posts(a[1..]), Posts(b));
    }
  }

  lemma {:induction false} TimeoutsConcat(a: seq<Cmd>, b: seq<Cmd>)
    ensures Timeouts(a + b) == Timeouts(a) + Timeouts(b)
    decreases |a|
  {
    if a == [] {
      assert a + b == b;
    } else {
      assert (a + b)[0] == a[0] && (a + b)[1..] == a[1..] + b;
      TimeoutsConcat(a[1..], b);
      var first := if a[0].AddTimeout? then [Timeout(a[0].now + a[0].delay, a[0].callback)] else [];
      ConcatAssoc(first, Timeouts(a[1..]), Timeouts(b));
    }
  }

  /** A script posts the tasks it names, in order, asks for as many timers, and stops the loop if it says so. */
  lemma {:induction false} ScriptDoes(w: World, cmds: seq<Cmd>)
    requires !RunCmds(w, cmds).aborted
    ensures var w' := RunCmds(w, cmds);
      && w'.callbacks == w.callbacks + Posts(cmds) && w'.trace.posted == w.trace.posted + Posts(cmds)
      && (w'.running <==> w.running && Stop !in cmds) && |w'.slots| == |w.slots|
      && w'.trace.adds == w.trace.adds + |Timeouts(cmds)|
    decreases |cmds|
  {
    hide Exec;
    if cmds == [] {
      assert w.callbacks + [] == w.callbacks && w.trace.posted + [] == w.trace.posted;
    } else {
      var w1 := Exec(w, cmds[0]);
      AbortedStays(w1, cmds[1..]);
      ExecPosts(w, cmds[0]);
      ScriptDoes(w1, cmds[1..]);
      assert [cmds[0]] + cmds[1..] == cmds;
      PostsConcat([cmds[0]], cmds[1..]);
      TimeoutsConcat([cmds[0]], cmds[1..]);
      ConcatAssoc(w.callbacks, Posts([cmds[0]]), Posts(cmds[1..]));
      ConcatAssoc(w.trace.posted, Posts([cmds[0]]), Posts(cmds[1..]));
    }
  }

  lemma ExecSlot(w: World, cmd: Cmd, fd: int)
    requires InRange(fd, |w.slots|) && !Exec(w, cmd).aborted
    ensures |Exec(w, cmd).slots| == |w.slots| && Exec(w, cmd).slots[fd] == SlotAfter(fd, w.slots[fd], [cmd])
  {
    assert [cmd][..0] == [];
    assert SlotAfter(fd, w.slots[fd], []) == w.slots[fd];
  }

  /** And leaves in each slot what the last call naming its descriptor puts there. */
  lemma {:induction false} ScriptSlots(w: World, cmds: seq<Cmd>, fd: int)
    requires InRange(fd, |w.slots|) && !RunCmds(w, cmds).aborted
    ensures var w' := RunCmds(w, cmds); |w'.slots| == |w.slots| && w'.slots[fd] == SlotAfter(fd, w.slots[fd], cmds)
    decreases |cmds|
  {
    hide Exec;
    if cmds != [] {
      var init, last := cmds[..|cmds| - 1], cmds[|cmds| - 1];
      assert cmds == init + [last];
      RunCmdsConcat(w, init, [last]);
      var w1 := RunCmds(w, init);
      assert RunCmds(w1, [last]) == Exec(w1, last);
      AbortedStays(w1, [last]);
      ScriptSlots(w, init, fd);
      ExecSlot(w1, last, fd);
      assert [last][..0] == [] && SlotAfter(fd, w1.slots[fd], []) == w1.slots[fd];
    }
  }

  lemma ExecAdds(w: World, now: int, delay: int, callback: Script)
    requires !w.aborted && !HasId(w.timers.events, Proposed(w.timers))
    ensures var e, w' := Event(Proposed(w.timers), now + delay, callback), Exec(w, AddTimeout(now, delay, callback));
      w'.trace.added == w.trace.added + [e] && w'.timers == Added(w.timers, IDS_64, now + delay, callback)
  {
    hide Added, HasId;
  }

  /** A timer it asks for is added with its time and callback, and the next id, until the counter wraps. */
  lemma ExecAddsTimer(w: World, now: int, delay: int, callback: Script, rest: seq<Task>, batch: seq<Event<Script>>)
    requires Accounted(w, rest, batch) && !w.aborted && w.trace.adds + 1 < IDS_64
    ensures var e, w' := Event(w.trace.adds + 1, now + delay, callback), Exec(w, AddTimeout(now, delay, callback));
      && w'.trace.added == w.trace.added + [e]
      && multiset(w'.timers.events) == multiset(w.timers.events) + multiset{e}
  {
    ProposedIsFree(w, rest, batch);
    AddInserts(w.timers, IDS_64, now + delay, callback);
    hide Added, Conserved, IssuedInOrder, NeverEarly, Occupied, HasId, Exec, WellFormed, Proposed, Accounted;
    ExecAdds(w, now, delay, callback);
  }

  /** A timer it removes while pending is gone, and on record as erased. */
  lemma ExecErasesTimer(w: World, e: Event<Script>, rest: seq<Task>, batch: seq<Event<Script>>)
    requires Accounted(w, rest, batch) && !w.aborted && e in w.timers.events
    ensures var w' := Exec(w, RemoveTimeout(e.id));
      && !HasId(w'.timers.events, e.id) && w'.trace.erased == w.trace.erased + [e]
      && multiset(w.timers.events) == multiset(w'.timers.events) + multiset{e}
  {
    EraseRemoves(w.timers, IDS_64, e.id);
    var i :| 0 <= i < |w.timers.events| && w.timers.events[i] == e;
  }

  // ------------------------------------------------------------------ the record kept

  /** The same but for the record of what ran and fired. */
  function Marked(w: World, tr: Trace): World {
    w.(trace := w.trace.(ran := tr.ran, fired := tr.fired, firedAt := tr.firedAt))
  }

  lemma ExecMarked(w: World, tr: Trace, cmd: Cmd)
    ensures Exec(Marked(w, tr), cmd) == Marked(Exec(w, cmd), tr)
  {
    hide Added, Erased, HasId, IndexOf, Proposed;
  }

  /** What a script does has nothing to do with that record. */
  lemma {:induction false} CmdsMarked(w: World, tr: Trace, cmds: seq<Cmd>)
    ensures RunCmds(Marked(w, tr), cmds) == Marked(RunCmds(w, cmds), tr)
    decreases |cmds|
  {
    hide Exec, Marked;
    if cmds != [] {
      ExecMarked(w, tr, cmds[0]);
      CmdsMarked(Exec(w, cmds[0]), tr, cmds[1..]);
    }
  }

  lemma MarkedTwice(w: World, a: Trace, b: Trace)
    ensures Marked(Marked(w, a), b) == Marked(w, b) && Marked(w, w.trace) == w && Marked(w, a).aborted == w.aborted
  {
  }

  // ------------------------------------------------------------------ the callbacks

  /** The calls of a batch of callbacks, one after the other. */
  function TaskCmds(tasks: seq<Task>): seq<Cmd> {
    if tasks == [] then [] else tasks[0].callback.cmds + TaskCmds(tasks[1..])
  }

  lemma RunTaskDoes(w: World, task: Task)
    requires !w.aborted
    ensures RunTask(w, task) == Marked(RunCmds(w, task.callback.cmds), w.trace.(ran := w.trace.ran + [task]))
  {
    var tr := w.trace.(ran := w.trace.ran + [task]);
    assert w.(trace := tr) == Marked(w, tr);
    CmdsMarked(w, tr, task.callback.cmds);
  }

  lemma AbortedBatchStays(w: World, tasks: seq<Task>)
    requires !RunTasks(w, tasks).aborted
    ensures !w.aborted
  {
    BatchRunsInOrder(w, tasks);
  }

  /** A batch of callbacks makes their calls, in order, and records that they ran. */
  lemma {:induction false} TasksDo(w: World, tasks: seq<Task>)
    requires !RunTasks(w, tasks).aborted
    ensures RunTasks(w, tasks) == Marked(RunCmds(w, TaskCmds(tasks)), w.trace.(ran := w.trace.ran + tasks))
    decreases |tasks|
  {
    hide RunTask, Marked;
    AbortedBatchStays(w, tasks);
    if tasks == [] {
      assert w.trace.(ran := w.trace.ran + []) == w.trace;
      MarkedTwice(w, w.trace, w.trace);
    } else {
      var w1, cmds := RunTask(w, tasks[0]), tasks[0].callback.cmds;
      var tr := w.trace.(ran := w.trace.ran + [tasks[0]]);
      var v1 := RunCmds(w, cmds);
      RunTaskDoes(w, tasks[0]);
      TasksDo(w1, tasks[1..]);
      CmdsMarked(v1, tr, TaskCmds(tasks[1..]));
      RunCmdsConcat(w, cmds, TaskCmds(tasks[1..]));
      MarkedKeeps(v1, tr);
      RunCmdsTrace(w, cmds);
      assert w.trace.ran + [tasks[0]] + tasks[1..] == w.trace.ran + tasks;
      RemarkedRan(RunCmds(v1, TaskCmds(tasks[1..])), tr, w1.trace, w.trace, w.trace.ran + tasks);
    }
  }

  lemma MarkedKeeps(w: World, tr: Trace)
    ensures var w' := Marked(w, tr); w'.trace.ran == tr.ran && w'.trace.fired == tr.fired && w'.trace.firedAt == tr.firedAt
  {
  }

  lemma RemarkedRan(w: World, a: Trace, b: Trace, c: Trace, ran: seq<Task>)
    requires b.fired == c.fired && b.firedAt == c.firedAt
    ensures Marked(Marked(w, a), b.(ran := ran)) == Marked(w, c.(ran := ran))
  {
  }

  // --------------------------------------------------------------------- the timers

  function EventCmds(es: seq<Event<Script>>): seq<Cmd> {
    if es == [] then [] else es[0].callback.cmds + EventCmds(es[1..])
  }

  /** The record with these events fired now. */
  function Firing(tr: Trace, es: seq<Event<Script>>, now: int): Trace {
    tr.(fired := tr.fired + es, firedAt := tr.firedAt + seq(|es|, _ => now))
  }

  lemma FireDoes(w: World, e: Event<Script>, now: int)
    requires !w.aborted
    ensures Fire(w, e, now) == Marked(RunCmds(w, e.callback.cmds), Firing(w.trace, [e], now))
  {
    var tr := Firing(w.trace, [e], now);
    assert seq(1, _ => now) == [now];
    assert w.(trace := w.trace.(fired := w.trace.fired + [e], firedAt := w.trace.firedAt + [now])) == Marked(w, tr);
    CmdsMarked(w, tr, e.callback.cmds);
  }

  lemma FiringTwice(tr: Trace, tr': Trace, e: Event<Script>, es: seq<Event<Script>>, now: int)
    requires es != [] && es[0] == e && tr'.ran == tr.ran
    requires tr'.fired == tr.fired + [e] && tr'.firedAt == tr.firedAt + [now]
    ensures var a, b := Firing(tr', es[1..], now), Firing(tr, es, now);
      a.ran == b.ran && a.fired == b.fired && a.firedAt == b.firedAt
  {
    assert seq(|es|, _ => now) == [now] + seq(|es| - 1, _ => now);
    assert tr.fired + [e] + es[1..] == tr.fired + es;
  }

  lemma SameMarks(w: World, v: Trace, a: Trace, b: Trace)
    requires a.ran == b.ran && a.fired == b.fired && a.firedAt == b.firedAt
    ensures Marked(Marked(w, v), a) == Marked(w, b)
  {
  }

  /** A batch of timers makes the calls of its callbacks, in order, and records them as fired. */
  lemma {:induction false} FireAllDoes(w: World, es: seq<Event<Script>>, now: int)
    requires !FireAll(w, es, now).aborted
    ensures FireAll(w, es, now) == Marked(RunCmds(w, EventCmds(es)), Firing(w.trace, es, now))
    decreases |es|
  {
    hide Fire, Marked, Firing;
    FireAllFires(w, es, now);
    if es == [] {
      NothingFires(w, now);
    } else {
      var w1, cmds := Fire(w, es[0], now), es[0].callback.cmds;
      var tr, v1 := Firing(w.trace, [es[0]], now), RunCmds(w, es[0].callback.cmds);
      FireDoes(w, es[0], now);
      FireAllDoes(w1, es[1..], now);
      CmdsMarked(v1, tr, EventCmds(es[1..]));
      RunCmdsConcat(w, cmds, EventCmds(es[1..]));
      MarkedKeeps(v1, tr);
      FiringOne(w.trace, es[0], now);
      FiringTwice(w.trace, w1.trace, es[0], es, now);
      SameMarks(RunCmds(v1, EventCmds(es[1..])), tr, Firing(w1.trace, es[1..], now), Firing(w.trace, es, now));
    }
  }

  lemma FiringOne(tr: Trace, e: Event<Script>, now: int)
    ensures var a := Firing(tr, [e], now);
      a.ran == tr.ran && a.fired == tr.fired + [e] && a.firedAt == tr.firedAt + [now]
  {
    assert seq(1, _ => now) == [now];
  }

  lemma NothingFires(w: World, now: int)
    ensures Marked(w, Firing(w.trace, [], now)) == w
  {
  }

  // ------------------------------------------------------------------- the handlers

  /**
   The handlers of the ready descriptors, one by one: each is looked up when its turn comes, and makes
   its calls then if its slot is occupied; nothing else happens.
   */
  ghost predicate Calls(ws: seq<World>, ready: seq<int>) {
    |ws| == |ready| + 1 &&
    forall i :: 0 <= i < |ready| ==>
      && InRange(ready[i], |ws[i].slots|)
      && ws[i + 1] == match ws[i].slots[ready[i]]
                      case None => ws[i]
                      case Some(h) => RunCmds(ws[i], h.callback.cmds)
  }

  lemma {:induction false} AbortedDispatch(w: World, ready: seq<int>)
    requires w.aborted
    ensures Dispatch(w, ready) == w
    decreases |ready|
  {
    if ready != [] { AbortedDispatch(w, ready[1..]); }
  }

  lemma {:induction false} DispatchCalls(w: World, ready: seq<int>) returns (ws: seq<World>)
    requires !Dispatch(w, ready).aborted
    ensures Calls(ws, ready) && ws[0] == w && ws[|ready|] == Dispatch(w, ready)
    decreases |ready|
  {
    hide RunCmds;
    if ready == [] {
      ws := [w];
    } else {
      if w.aborted { AbortedDispatch(w, ready); }
      var w1 := DispatchOne(w, ready[0]);
      if w1.aborted { AbortedDispatch(w1, ready[1..]); }
      var rest := DispatchCalls(w1, ready[1..]);
      ws := [w] + rest;
      forall i | 0 <= i < |ready|
        ensures InRange(ready[i], |ws[i].slots|)
        ensures ws[i + 1] == match ws[i].slots[ready[i]]
                             case None => ws[i]
                             case Some(h) => RunCmds(ws[i], h.callback.cmds)
      {
        if i > 0 { assert ready[1..][i - 1] == ready[i] && rest[i - 1] == ws[i]; }
      }
    }
  }

  // ------------------------------------------------------------------- one iteration

  /** The world as it is once the callbacks posted before the iteration have made their calls. */
  function CallbacksMade(w: World): World { RunCmds(w.(callbacks := []), TaskCmds(w.callbacks)) }

  /** These events have left the queue and made their calls. */
  function TimersMade(w: World, due: seq<Event<Script>>, rest: seq<Event<Script>>): World {
    RunCmds(w.(timers := w.timers.(events := rest)), EventCmds(due))
  }

  lemma CallbacksAre(w: World)
    requires !RunCallbacks(w).aborted
    ensures RunCallbacks(w) == Marked(CallbacksMade(w), w.trace.(ran := w.trace.ran + w.callbacks))
  {
    hide RunTasks, Marked, RunCmds;
    TasksDo(w.(callbacks := []), w.callbacks);
  }

  /** The queue in two, by what is due. */
  ghost predicate Splits(es: seq<Event<Script>>, due: seq<Event<Script>>, rest: seq<Event<Script>>, now: int) {
    && es == due + rest
    && (forall e <- due :: e.expiration <= now) && (forall e <- rest :: e.expiration > now)
  }

  lemma DueAre(t: Timers<Script>, now: int) returns (due: seq<Event<Script>>, rest: seq<Event<Script>>)
    requires WellFormed(t, IDS_64)
    ensures due == Due(t, now) && rest == Later(t, now).events && Splits(t.events, due, rest, now)
  {
    DueSplits(t, IDS_64, now);
    due, rest := Due(t, now), Later(t, now).events;
  }

  lemma TimersAre(w: World, v: World, tr: Trace, now: int) returns (due: seq<Event<Script>>, rest: seq<Event<Script>>)
    requires w == Marked(v, tr) && WellFormed(w.timers, IDS_64) && !RunTimers(w, now).aborted
    ensures Splits(v.timers.events, due, rest, now)
    ensures RunTimers(w, now) == Marked(TimersMade(v, due, rest), Firing(tr, due, now))
  {
    due, rest := DueAre(w.timers, now);
    var w0, v0 := w.(timers := Later(w.timers, now)), v.(timers := v.timers.(events := rest));
    assert w0 == Marked(v0, tr);
    hide FireAll, RunCmds;
    if w.timers.events == [] {
      assert due == [] && rest == [];
      assert v0 == v;
      NothingMade(v0);
      NothingFires(w, now);
    } else {
      FireAllDoes(w0, due, now);
      CmdsMarked(v0, tr, EventCmds(due));
    }
  }

  lemma NothingMade(w: World)
    ensures RunCmds(w, EventCmds([])) == w
  {
  }

  /** Nothing left for the loop to do. */
  ghost predicate Idle(w: World) {
    && (forall i :: 0 <= i < |w.slots| ==> w.slots[i].None?)
    && w.callbacks == [] && w.timers.events == []
  }

  lemma ExhaustedIsIdle(w: World)
    requires Accounted(w, [], []) && !w.aborted
    ensures ExitOf(w) == if !w.running then Stopped else if Idle(w) then Exhausted else Going
  {
    hide Conserved, NeverEarly, IssuedInOrder, WellFormed;
    NoneOccupied(w.slots);
  }

  lemma TurnEnds(w: World, tick: Tick)
    requires !Turn(w, tick).0.aborted
    ensures !RunCallbacks(w).aborted && !RunTimers(RunCallbacks(w), tick.timerNow).aborted
  {
    hide RunCallbacks;
    var w1, now := RunCallbacks(w), tick.timerNow;
    if w1.aborted { FireAllFires(w1.(timers := Later(w1.timers, now)), Due(w1.timers, now), now); }
  }

  lemma MarkedIs(w: World, v: World, tr: Trace)
    requires w == Marked(v, tr)
    ensures w.running == v.running && w.slots == v.slots && w.callbacks == v.callbacks && w.timers == v.timers
    ensures w.aborted == v.aborted && w == Marked(v, w.trace) && w.trace.posted == v.trace.posted
    ensures w.trace.ran == tr.ran && w.trace.fired == tr.fired && w.trace.firedAt == tr.firedAt
  {
  }

  /** What an iteration does before its poll, in two worlds without the record. */
  lemma BeforePoll(w: World, tick: Tick) returns (due: seq<Event<Script>>, rest: seq<Event<Script>>)
    requires Accounted(w, [], []) && !RunCallbacks(w).aborted && !RunTimers(RunCallbacks(w), tick.timerNow).aborted
    ensures Splits(CallbacksMade(w).timers.events, due, rest, tick.timerNow)
    ensures var w2 := RunTimers(RunCallbacks(w), tick.timerNow);
      && Accounted(w2, [], []) && w2 == Marked(TimersMade(CallbacksMade(w), due, rest), w2.trace)
      && w2.trace.ran == w.trace.ran + w.callbacks
      && w2.trace.fired == w.trace.fired + due && w2.trace.firedAt == w.trace.firedAt + seq(|due|, _ => tick.timerNow)
      && (w2.running <==> w.running && Stop !in TaskCmds(w.callbacks) && Stop !in EventCmds(due))
  {
    RunCallbacksKeeps(w);
    hide RunCallbacks, RunTimers, RunCmds, Accounted, Splits;
    CallbacksAre(w);
    var w1, v1, tr := RunCallbacks(w), CallbacksMade(w), w.trace.(ran := w.trace.ran + w.callbacks);
    MarkedIs(w1, v1, tr);
    assert WellFormed(w1.timers, IDS_64) by { WellKept(w1); }
    due, rest := TimersAre(w1, v1, tr, tick.timerNow);
    var w2, v2 := RunTimers(w1, tick.timerNow), TimersMade(v1, due, rest);
    MarkedIs(w2, v2, Firing(tr, due, tick.timerNow));
    ScriptDoes(w.(callbacks := []), TaskCmds(w.callbacks));
    ScriptDoes(v1.(timers := v1.timers.(events := rest)), EventCmds(due));
    TimersKeep(w1, tick.timerNow);
  }

  lemma WellKept(w: World)
    requires Accounted(w, [], [])
    ensures WellFormed(w.timers, IDS_64)
  {
  }

  lemma TimersKeep(w: World, now: int)
    requires Accounted(w, [], [])
    ensures Accounted(RunTimers(w, now), [], [])
  {
    RunOnceKeeps(w, now, []);
  }

  /**
   One iteration, exactly, whatever its callbacks do. First all callbacks posted before it make their
   calls, in posting order, and no others run. Then all timers pending after that and due by the first
   clock reading have left the queue; they fire, in order, and no others. Then the loop ends if some of
   these calls stopped it, or if nothing is left to do. If it goes on, the handlers of the descriptors
   the poll found ready make their calls, in the order of the list, each if its slot is then occupied.
   */
  lemma TurnIsExact(w: World, tick: Tick) returns (due: seq<Event<Script>>, rest: seq<Event<Script>>, ws: seq<World>)
    requires Accounted(w, [], []) && !Turn(w, tick).0.aborted
    ensures Splits(CallbacksMade(w).timers.events, due, rest, tick.timerNow)
    ensures var (w', exit) := Turn(w, tick); var w2 := Marked(TimersMade(CallbacksMade(w), due, rest), w'.trace);
      && w'.trace.ran == w.trace.ran + w.callbacks
      && w'.trace.fired == w.trace.fired + due && w'.trace.firedAt == w.trace.firedAt + seq(|due|, _ => tick.timerNow)
      && (exit == Stopped <==> !w.running || Stop in TaskCmds(w.callbacks) || Stop in EventCmds(due))
      && (exit == Exhausted <==> exit != Stopped && Idle(w2))
      && (exit != Going ==> w' == w2)
      && (exit == Going ==> Calls(ws, tick.ready) && ws[0] == w2 && ws[|tick.ready|] == w')
  {
    TurnEnds(w, tick);
    hide RunCallbacks, RunTimers, RunCmds, Splits, Accounted, Calls;
    due, rest := BeforePoll(w, tick);
    var w2 := RunTimers(RunCallbacks(w), tick.timerNow);
    ExhaustedIsIdle(w2);
    ws := [];
    if ExitOf(w2) == Going {
      ws := DispatchCalls(w2, tick.ready);
      CallsKeepRecord(ws, tick.ready, |tick.ready|);
    }
    SameRecord(TimersMade(CallbacksMade(w), due, rest), w2, Turn(w, tick).0.trace);
  }

  lemma SameRecord(v: World, w: World, tr: Trace)
    requires w == Marked(v, w.trace) && tr.ran == w.trace.ran && tr.fired == w.trace.fired && tr.firedAt == w.trace.firedAt
    ensures w == Marked(v, tr)
  {
  }

  /** Handlers run no posted callback and fire no timer. */
  lemma {:induction false} CallsKeepRecord(ws: seq<World>, ready: seq<int>, n: nat)
    requires Calls(ws, ready) && n <= |ready|
    ensures var a, b := ws[0].trace, ws[n].trace; b.ran == a.ran && b.fired == a.fired && b.firedAt == a.firedAt
    decreases n
  {
    if n > 0 {
      CallsKeepRecord(ws, ready, n - 1);
      var w := ws[n - 1];
      if w.slots[ready[n - 1]].Some? { RunCmdsTrace(w, w.slots[ready[n - 1]].value.callback.cmds); }
    }
  }

  // ---------------------------------------------------- handlers that post and remove

  predicate PostsOrRemoves(cmds: seq<Cmd>) { forall c <- cmds :: c.AddCallback? || c.RemoveHandler? }

  /** A table whose handlers do nothing but post callbacks and remove handlers, of any descriptors. */
  predicate Simple(slots: seq<Option<Handler>>) {
    forall i :: 0 <= i < |slots| ==> slots[i].Some? ==> PostsOrRemoves(slots[i].value.callback.cmds)
  }

  /** The table with these handlers removed. */
  function Without(slots: seq<Option<Handler>>, cmds: seq<Cmd>): (left: seq<Option<Handler>>)
    ensures |left| == |slots|
  {
    seq(|slots|, i requires 0 <= i < |slots| => if InRange(i, |slots|) && RemoveHandler(i) in cmds then None else slots[i])
  }

  /** What such handlers post: in the order of the list, those not removed by one before them. */
  function Answers(slots: seq<Option<Handler>>, ready: seq<int>): seq<Task>
    requires forall fd <- ready :: InRange(fd, |slots|)
    decreases |ready|
  {
    if ready == [] then []
    else
      assert ready[0] in ready && InRange(ready[0], |slots|);
      var rest := ready[1..];
      assert forall fd <- rest :: fd in ready;
      match slots[ready[0]]
      case None => Answers(slots, rest)
      case Some(h) => Posts(h.callback.cmds) + Answers(Without(slots, h.callback.cmds), rest)
  }

  lemma {:induction false} SimpleSlot(fd: int, slot: Option<Handler>, cmds: seq<Cmd>)
    requires PostsOrRemoves(cmds)
    ensures SlotAfter(fd, slot, cmds) == if RemoveHandler(fd) in cmds then None else slot
    decreases |cmds|
  {
    if cmds != [] {
      var init, last := cmds[..|cmds| - 1], cmds[|cmds| - 1];
      assert cmds == init + [last] && last in cmds;
      forall c <- init ensures c in cmds { }
      SimpleSlot(fd, slot, init);
    }
  }

  lemma {:induction false} SimpleNeverAborts(w: World, cmds: seq<Cmd>)
    requires PostsOrRemoves(cmds) && !w.aborted
    ensures !RunCmds(w, cmds).aborted
    decreases |cmds|
  {
    if cmds != [] {
      assert cmds[0] in cmds;
      forall c <- cmds[1..] ensures c in cmds { }
      SimpleNeverAborts(Exec(w, cmds[0]), cmds[1..]);
    }
  }

  lemma {:induction false} LowSlotsStay(w: World, cmds: seq<Cmd>, i: nat)
    requires i < |w.slots| && !InRange(i, |w.slots|)
    ensures var w' := RunCmds(w, cmds); |w'.slots| == |w.slots| && w'.slots[i] == w.slots[i]
    decreases |cmds|
  {
    hide Added, Erased, HasId, IndexOf;
    if cmds != [] { LowSlotsStay(Exec(w, cmds[0]), cmds[1..], i); }
  }

  lemma SimpleScript(w: World, cmds: seq<Cmd>)
    requires PostsOrRemoves(cmds) && !w.aborted
    ensures var w' := RunCmds(w, cmds);
      !w'.aborted && w'.slots == Without(w.slots, cmds) && w'.callbacks == w.callbacks + Posts(cmds)
  {
    hide RunCmds, SlotAfter, PostsOrRemoves;
    SimpleNeverAborts(w, cmds);
    ScriptDoes(w, cmds);
    var w' := RunCmds(w, cmds);
    forall i | 0 <= i < |w.slots| ensures w'.slots[i] == Without(w.slots, cmds)[i] {
      if InRange(i, |w.slots|) {
        ScriptSlots(w, cmds, i);
        SimpleSlot(i, w.slots[i], cmds);
      } else {
        LowSlotsStay(w, cmds, i);
      }
    }
  }

  lemma WithoutIsSimple(slots: seq<Option<Handler>>, cmds: seq<Cmd>)
    requires Simple(slots)
    ensures Simple(Without(slots, cmds))
  {
  }

  /** Such handlers, called as a poll demands, post exactly that. */
  lemma {:induction false} CallsAnswer(ws: seq<World>, ready: seq<int>)
    requires Calls(ws, ready) && Simple(ws[0].slots) && !ws[0].aborted
    ensures forall fd <- ready :: InRange(fd, |ws[0].slots|)
    ensures ws[|ready|].callbacks == ws[0].callbacks + Answers(ws[0].slots, ready)
    decreases |ready|
  {
    hide RunCmds, PostsOrRemoves, Without, Posts;
    var w := ws[0];
    if ready == [] {
      assert w.callbacks + [] == w.callbacks;
    } else {
      var slot, rest, later := w.slots[ready[0]], ready[1..], ws[1..];
      if slot.Some? { SimpleScript(w, slot.value.callback.cmds); WithoutIsSimple(w.slots, slot.value.callback.cmds); }
      assert Calls(later, rest) by { CallsLater(ws, ready); }
      CallsAnswer(later, rest);
      forall fd <- ready ensures InRange(fd, |w.slots|) { if fd != ready[0] { assert fd in rest; } }
      if slot.Some? {
        ConcatAssoc(w.callbacks, Posts(slot.value.callback.cmds), Answers(later[0].slots, rest));
      }
    }
  }

  lemma CallsLater(ws: seq<World>, ready: seq<int>)
    requires Calls(ws, ready) && ready != []
    ensures Calls(ws[1..], ready[1..])
  {
    hide RunCmds;
    forall i | 0 <= i < |ready| - 1
      ensures InRange(ready[1..][i], |ws[1..][i].slots|)
      ensures ws[1..][i + 1] == match ws[1..][i].slots[ready[1..][i]]
                                case None => ws[1..][i]
                                case Some(h) => RunCmds(ws[1..][i], h.callback.cmds)
    {
      assert ready[1..][i] == ready[i + 1] && ws[1..][i] == ws[i + 1] && ws[1..][i + 1] == ws[i + 2];
    }
  }

  /**
   In an iteration that goes on: with such handlers the callbacks left waiting are those posted before
   the poll, then theirs.
   */
  lemma ReadyHandlersAnswer(w: World, tick: Tick) returns (due: seq<Event<Script>>, rest: seq<Event<Script>>)
    requires Accounted(w, [], []) && !Turn(w, tick).0.aborted && Turn(w, tick).1 == Going
    ensures Splits(CallbacksMade(w).timers.events, due, rest, tick.timerNow)
    ensures var w2 := TimersMade(CallbacksMade(w), due, rest);
      && (Simple(w2.slots) ==> forall fd <- tick.ready :: InRange(fd, |w2.slots|))
      && (Simple(w2.slots) ==> Turn(w, tick).0.callbacks == w2.callbacks + Answers(w2.slots, tick.ready))
  {
    hide Turn, RunCmds, Splits, Accounted, Simple, Answers;
    var ws: seq<World>;
    due, rest, ws := TurnIsExact(w, tick);
    var w2 := TimersMade(CallbacksMade(w), due, rest);
    MarkedIs(ws[0], w2, Turn(w, tick).0.trace);
    if Simple(w2.slots) {
      StartedWell(ws, tick.ready);
      CallsAnswer(ws, tick.ready);
    }
  }

  lemma {:induction false} StartedWell(ws: seq<World>, ready: seq<int>)
    requires Calls(ws, ready) && !ws[|ready|].aborted
    ensures !ws[0].aborted
    decreases |ready|
  {
    hide RunCmds;
    if ready != [] {
      CallsLater(ws, ready);
      StartedWell(ws[1..], ready[1..]);
      if ws[0].slots[ready[0]].Some? { AbortedStays(ws[0], ws[0].slots[ready[0]].value.callback.cmds); }
    }
  }

  // ------------------------------------------------------------------- over whole runs

  /** The record of timers only grows. */
  ghost predicate Grows(a: Trace, b: Trace) { a.added <= b.added && a.erased <= b.erased && a.adds <= b.adds }

  lemma ExecGrows(w: World, cmd: Cmd)
    ensures Grows(w.trace, Exec(w, cmd).trace)
  {
    hide Added, Erased, HasId, IndexOf, Proposed;
  }

  lemma {:induction false} CmdsGrow(w: World, cmds: seq<Cmd>)
    ensures Grows(w.trace, RunCmds(w, cmds).trace)
    decreases |cmds|
  {
    hide Exec;
    if cmds != [] {
      ExecGrows(w, cmds[0]);
      CmdsGrow(Exec(w, cmds[0]), cmds[1..]);
    }
  }

  lemma {:induction false} CallsGrow(ws: seq<World>, ready: seq<int>, n: nat)
    requires Calls(ws, ready) && n <= |ready|
    ensures Grows(ws[0].trace, ws[n].trace)
    decreases n
  {
    if n > 0 {
      CallsGrow(ws, ready, n - 1);
      var w := ws[n - 1];
      if w.slots[ready[n - 1]].Some? { CmdsGrow(w, w.slots[ready[n - 1]].value.callback.cmds); }
    }
  }

  lemma BeforePollGrows(w: World, due: seq<Event<Script>>, rest: seq<Event<Script>>)
    ensures Grows(w.trace, CallbacksMade(w).trace)
    ensures Grows(w.trace, TimersMade(CallbacksMade(w), due, rest).trace)
  {
    hide RunCmds;
    var w1 := CallbacksMade(w);
    CmdsGrow(w.(callbacks := []), TaskCmds(w.callbacks));
    CmdsGrow(w1.(timers := w1.timers.(events := rest)), EventCmds(due));
  }

  lemma TurnGrows(w: World, tick: Tick)
    requires Accounted(w, [], []) && !Turn(w, tick).0.aborted
    ensures Grows(w.trace, Turn(w, tick).0.trace) && w.trace.fired <= Turn(w, tick).0.trace.fired
  {
    hide Turn, RunCmds, Splits, Accounted, Calls;
    var due, rest, ws := TurnIsExact(w, tick);
    BeforePollGrows(w, due, rest);
    if Turn(w, tick).1 == Going {
      assert |ws| == |tick.ready| + 1 by { CallsSized(ws, tick.ready); }
      CallsGrow(ws, tick.ready, |tick.ready|);
    }
  }

  lemma CallsSized(ws: seq<World>, ready: seq<int>)
    requires Calls(ws, ready)
    ensures |ws| == |ready| + 1
  {
  }

  lemma CallbacksAccounted(w: World)
    requires Accounted(w, [], []) && !RunCallbacks(w).aborted
    ensures WellFormed(CallbacksMade(w).timers, IDS_64) && CallbacksMade(w).trace.added == RunCallbacks(w).trace.added
    ensures Accounted(RunCallbacks(w), [], []) && RunCallbacks(w).timers == CallbacksMade(w).timers
    ensures RunCallbacks(w).trace.erased == CallbacksMade(w).trace.erased && RunCallbacks(w).trace.fired == w.trace.fired
    ensures RunCallbacks(w).trace.adds == CallbacksMade(w).trace.adds
  {
    RunCallbacksKeeps(w);
    CallbacksAre(w);
    hide RunCallbacks, CallbacksMade;
  }

  /**
   No timer is forgotten: after an iteration every timer added before it, and due by its clock, has
   fired or been erased.
   */
  lemma DueTimersAreDone(w: World, tick: Tick, e: Event<Script>)
    requires Accounted(w, [], []) && !Turn(w, tick).0.aborted && Turn(w, tick).0.trace.adds < IDS_64
    requires e in w.trace.added && e.expiration <= tick.timerNow
    ensures e in Turn(w, tick).0.trace.fired || e in Turn(w, tick).0.trace.erased
  {
    TurnEnds(w, tick);
    hide Turn, RunCmds, Calls, RunCallbacks, Accounted, CallbacksMade, TimersMade;
    var due, rest, ws := TurnIsExact(w, tick);
    var v := RunCallbacks(w);
    TurnGrows(w, tick);
    CallbacksAccounted(w);
    BeforePollGrows(w, due, rest);
    TurnExtends(w, tick, due, rest, ws);
    FateOf(v, e);
    if e in v.timers.events { assert e in due; }
  }

  lemma FateOf(w: World, e: Event<Script>)
    requires Accounted(w, [], []) && !w.aborted && w.trace.adds < IDS_64 && e in w.trace.added
    ensures e in w.timers.events || e in w.trace.fired || e in w.trace.erased
  {
    ExactlyOneFate(w, [], [], e);
  }

  /** What the callbacks erased, and added, stays on record to the end of the iteration. */
  lemma TurnExtends(w: World, tick: Tick, due: seq<Event<Script>>, rest: seq<Event<Script>>, ws: seq<World>)
    requires !Turn(w, tick).0.aborted
    requires var (w', exit) := Turn(w, tick); var w2 := Marked(TimersMade(CallbacksMade(w), due, rest), w'.trace);
      if exit == Going then Calls(ws, tick.ready) && ws[0] == w2 && ws[|tick.ready|] == w' else w' == w2
    ensures Grows(CallbacksMade(w).trace, Turn(w, tick).0.trace)
  {
    hide Turn, RunCmds;
    var w1 := CallbacksMade(w);
    CmdsGrow(w1.(timers := w1.timers.(events := rest)), EventCmds(due));
    if Turn(w, tick).1 == Going { CallsGrow(ws, tick.ready, |tick.ready|); }
  }

  lemma {:induction false} AbortedTurns(w: World, ticks: seq<Tick>)
    requires !Turns(w, ticks).0.aborted && ticks != []
    ensures !Turn(w, ticks[0]).0.aborted
    decreases |ticks|
  {
    var w1 := Turn(w, ticks[0]).0;
    if w1.aborted && Turn(w, ticks[0]).1 == Going { AbortedOn(w1, ticks[1..]); }
  }

  lemma AbortedOn(w: World, ticks: seq<Tick>)
    requires w.aborted
    ensures Turns(w, ticks).0.aborted
  {
    if ticks != [] {
      var now, w1 := ticks[0].timerNow, RunCallbacks(w);
      BatchRunsInOrder(w.(callbacks := []), w.callbacks);
      FireAllFires(w1.(timers := Later(w1.timers, now)), Due(w1.timers, now), now);
    }
  }

  /** Erased timers stay erased over any number of iterations. */
  lemma {:induction false} TurnsGrow(w: World, ticks: seq<Tick>)
    requires Accounted(w, [], []) && !Turns(w, ticks).0.aborted
    ensures Grows(w.trace, Turns(w, ticks).0.trace)
    decreases |ticks|
  {
    hide Turn, Accounted;
    if ticks != [] {
      AbortedTurns(w, ticks);
      TurnGrows(w, ticks[0]);
      TurnKeeps(w, ticks[0]);
      if Turn(w, ticks[0]).1 == Going { TurnsGrow(Turn(w, ticks[0]).0, ticks[1..]); }
    }
  }

  /** A pending timer that a call removes never fires, whatever the loop does from there on. */
  lemma RemovedNeverFires(w: World, e: Event<Script>, ticks: seq<Tick>)
    requires Accounted(w, [], []) && !w.aborted && e in w.timers.events
    requires var w' := Turns(Exec(w, RemoveTimeout(e.id)), ticks).0; !w'.aborted && w'.trace.adds < IDS_64
    ensures e !in Turns(Exec(w, RemoveTimeout(e.id)), ticks).0.trace.fired
  {
    hide Turns, Exec, Accounted;
    var w1 := Exec(w, RemoveTimeout(e.id));
    ExecErasesTimer(w, e, [], []);
    ExecKeeps(w, RemoveTimeout(e.id), [], []);
    TurnsGrow(w1, ticks);
    TurnsKeep(w1, ticks);
    assert w1.trace.erased[|w.trace.erased|] == e;
    ErasedDoesNotFire(Turns(w1, ticks).0, e);
  }

  lemma ErasedDoesNotFire(w: World, e: Event<Script>)
    requires Accounted(w, [], []) && !w.aborted && w.trace.adds < IDS_64 && e in w.trace.erased
    ensures e !in w.trace.fired
  {
    assert e in multiset(w.trace.erased);
    assert e in multiset(w.trace.added);
    ExactlyOneFate(w, [], [], e);
  }

  // --------------------------------------------------------------------------- polls

  /** The world an iteration polls in: its callbacks and timers have made their calls. */
  ghost predicate PolledIn(w: World, tick: Tick, v: World) {
    exists due, rest ::
      Splits(CallbacksMade(w).timers.events, due, rest, tick.timerNow)
      && v == Marked(TimersMade(CallbacksMade(w), due, rest), v.trace)
  }

  lemma PolledNow(w: World, tick: Tick)
    requires Accounted(w, [], []) && !Turn(w, tick).0.aborted
    ensures var v := RunTimers(RunCallbacks(w), tick.timerNow); PolledIn(w, tick, v) && WellFormed(v.timers, IDS_64)
  {
    TurnEnds(w, tick);
    hide RunCallbacks, RunTimers, RunCmds;
    var due, rest := BeforePoll(w, tick);
    WellKept(RunTimers(RunCallbacks(w), tick.timerNow));
  }

  predicate SaneClocks(ticks: seq<Tick>) { forall t <- ticks :: 0 <= t.pollNow && t.pollNow + POLL_LIMIT <= INT64_MAX }

  /**
   Over a whole run of start() that does not abort: one poll for each iteration that goes on, and each is
   given the least of a minute and the times, by its own clock reading, to what is then pending.
   */
  lemma {:induction false} PollsAreSafe(w: World, ticks: seq<Tick>) returns (vs: seq<World>)
    requires Accounted(w, [], []) && !Turns(w, ticks).0.aborted && SaneClocks(ticks)
    ensures var polls := Polls(w, ticks);
      && |vs| == |polls| <= |ticks|
      && (|polls| == |ticks| <==> Turns(w, ticks).1 == Going)
      && forall i :: 0 <= i < |polls| ==>
           PolledIn(Turns(w, ticks[..i]).0, ticks[i], vs[i]) && SleepsFor(vs[i], ticks[i].pollNow, polls[i])
    decreases |ticks|
  {
    hide Turn, Accounted, SleepsFor, PolledIn, RunCallbacks, RunTimers, PollTimeout, Dispatch;
    vs := [];
    if ticks != [] {
      var tick, rest := ticks[0], ticks[1..];
      AbortedTurns(w, ticks);
      PolledNow(w, tick);
      TurnKeeps(w, tick);
      TurnPolls(w, ticks);
      var v, w1 := RunTimers(RunCallbacks(w), tick.timerNow), Turn(w, tick).0;
      assert tick in ticks;
      PollTimeoutIsSafe(v, tick.pollNow);
      if Turn(w, tick).1 == Going {
        forall t <- rest ensures 0 <= t.pollNow && t.pollNow + POLL_LIMIT <= INT64_MAX { assert t in ticks; }
        var later := PollsAreSafe(w1, rest);
        vs := [v] + later;
        var polls := Polls(w, ticks);
        forall i | 0 <= i < |polls|
          ensures PolledIn(Turns(w, ticks[..i]).0, ticks[i], vs[i]) && SleepsFor(vs[i], ticks[i].pollNow, polls[i])
        {
          if i > 0 {
            assert ticks[..i][0] == tick && ticks[..i][1..] == rest[..i - 1] && ticks[i] == rest[i - 1];
          }
        }
      }
    }
  }

  lemma TurnPolls(w: World, ticks: seq<Tick>)
    requires ticks != []
    ensures var (w', exit) := Turn(w, ticks[0]); var v := RunTimers(RunCallbacks(w), ticks[0].timerNow);
      Polls(w, ticks) == if exit != Going then [] else [PollTimeout(v, ticks[0].pollNow)] + Polls(w', ticks[1..])
  {
    hide RunCallbacks, RunTimers, PollTimeout, Dispatch;
  }
}
