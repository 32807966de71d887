/** The event loop object: handler table, deferred callbacks, timers, and the start() loop. */
module IOLoops {
  import opened Common
  import opened Timers
  import opened TimerQueues
  import opened LoopModel
  import opened LoopProofs

  class IOLoop {
    const handlers: array<Option<Handler>>
    const timeouts: TimeoutQueue<Script>
    var handleNum: int
    var callbacks: seq<Task>
    var running: bool
    var aborted: bool
    ghost var trace: Trace

    ghost predicate Valid()
      reads this, timeouts
    {
      timeouts.Valid()
    }

    ghost function Value(): World
      reads this, handlers, timeouts
    {
      World(handlers[..], handleNum, callbacks, timeouts.Value(), running, aborted, trace)
    }

    constructor (maxFd: nat)
      ensures Valid() && fresh(handlers) && fresh(timeouts)
      ensures handlers.Length == maxFd && Accounted(Value(), [], [])
      ensures callbacks == [] && !running && !aborted && trace.posted == [] && trace.adds == 0
      ensures forall i :: 0 <= i < maxFd ==> handlers[i].None?
    {
      handlers := new Option<Handler>[maxFd](i => None);
      timeouts := new TimeoutQueue<Script>();
      handleNum := 0;
      callbacks := [];
      running := false;
      aborted := false;
      trace := Trace([], [], 0, [], [], [], []);
      new;
      NoneOccupied(handlers[..]);
    }

    method AddCallback(task: Task)
      requires Valid()
      modifies this
      ensures Valid() && Value() == Post(old(Value()), task)
    {
      callbacks := callbacks + [task];
      trace := trace.(posted := trace.posted + [task]);
    }

    method AddTimeout(now: int, delay: int, callback: Script) returns (id: nat)
      requires Valid()
      modifies this, timeouts
      ensures Valid() && Value() == DoAddTimeout(old(Value()), now + delay, callback)
      ensures id == Proposed(old(timeouts.Value()))
    {
      trace := trace.(adds := trace.adds + 1,
                      added := trace.added + Inserted(timeouts.Value(), now + delay, callback));
      id := timeouts.Add(now, delay, callback);
    }

    method RemoveTimeout(id: nat) returns (erased: bool)
      requires Valid()
      modifies this, timeouts
      ensures Valid() && Value() == DoRemoveTimeout(old(Value()), id)
      ensures erased <==> HasId(old(timeouts.Value().events), id)
    {
      ghost var es := timeouts.Value().events;
      erased := timeouts.Erase(id);
      if erased {
        trace := trace.(erased := trace.erased + [es[IndexOf(es, id)]]);
      }
    }

    /** `epoll` is what registerFD answers; a failure there is returned and changes nothing here. */
    method AddHandler(fd: int, callback: Script, events: Mask, epoll: int) returns (result: int)
      requires Valid()
      modifies this, handlers
      ensures Valid() && Value() == DoAddHandler(old(Value()), fd, events, callback)
      ensures result == if InRange(fd, handlers.Length) then epoll else -1
    {
      if fd < MIN_FD || fd >= handlers.Length {
        return -1;
      }
      if handlers[fd].Some? {
        aborted := true;
        return epoll;
      }
      handleNum := handleNum + 1;
      handlers[fd] := Some(Handler(events.Union(ERROR), callback));
      return epoll;
    }

    /** `epoll` is what modifyFD answers. */
    method UpdateHandler(fd: int, events: Mask, epoll: int) returns (result: int)
      requires Valid()
      modifies handlers
      ensures Valid() && Value() == DoUpdateHandler(old(Value()), fd, events)
      ensures result == if InRange(fd, handlers.Length) then epoll else -1
    {
      if fd < MIN_FD || fd >= handlers.Length {
        return -1;
      }
      if handlers[fd].Some? {
        handlers[fd] := Some(handlers[fd].value.(interest := events.Union(ERROR)));
      }
      return epoll;
    }

    /** `epoll` is what unregisterFD answers. */
    method RemoveHandler(fd: int, epoll: int) returns (result: int)
      requires Valid()
      modifies this, handlers
      ensures Valid() && Value() == DoRemoveHandler(old(Value()), fd)
      ensures result ==
        if !InRange(fd, handlers.Length) then -1 else if old(handlers[fd]).None? then 0 else epoll
    {
      if fd < MIN_FD || fd >= handlers.Length {
        return -1;
      }
      if handlers[fd].None? {
        return 0;
      }
      handleNum := handleNum - 1;
      handlers[fd] := None;
      return epoll;
    }

    method CallHandlers(cmd: Cmd)
      requires Valid() && !aborted && (cmd.AddHandler? || cmd.UpdateHandler? || cmd.RemoveHandler?)
      modifies this, handlers
      ensures Valid() && Value() == Exec(old(Value()), cmd)
    {
      var epoll: int := *;
      match cmd
      case AddHandler(fd, interest, callback) => var _ := AddHandler(fd, callback, interest, epoll);
      case UpdateHandler(fd, interest) => var _ := UpdateHandler(fd, interest, epoll);
      case RemoveHandler(fd) => var _ := RemoveHandler(fd, epoll);
    }

    method CallTimers(cmd: Cmd)
      requires Valid() && !aborted && (cmd.AddTimeout? || cmd.RemoveTimeout?)
      modifies this, timeouts
      ensures Valid() && Value() == Exec(old(Value()), cmd)
    {
      match cmd
      case AddTimeout(now, delay, callback) => var _ := AddTimeout(now, delay, callback);
      case RemoveTimeout(id) => var _ := RemoveTimeout(id);
    }

    /** One call a user callback makes back into the loop. */
    method Call(cmd: Cmd)
      requires Valid() && !aborted
      modifies this, handlers, timeouts
      ensures Valid() && Value() == Exec(old(Value()), cmd)
    {
      match cmd
      case AddTimeout(_, _, _) => CallTimers(cmd);
      case RemoveTimeout(_) => CallTimers(cmd);
      case AddCallback(callback) => AddCallback(Task(Plain, callback));
      case Stop => running := false;
      case Enter(_) =>
      case _ => CallHandlers(cmd);
    }

    /** Runs a user callback to its end, or until an assertion fails. */
    method Invoke(callback: Script)
      requires Valid()
      modifies this, handlers, timeouts
      ensures Valid() && Value() == RunCmds(old(Value()), callback.cmds)
    {
      var i := 0;
      while i < |callback.cmds| && !aborted
        invariant 0 <= i <= |callback.cmds|
        invariant Valid()
        invariant RunCmds(old(Value()), callback.cmds) == RunCmds(Value(), callback.cmds[i..])
      {
        Call(callback.cmds[i]);
        assert callback.cmds[i..][1..] == callback.cmds[i + 1..];
        i := i + 1;
      }
      RunCmdsTrace(Value(), callback.cmds[i..]);
    }

    /** The callback half of one iteration: swap the queue out, then run what it held. */
    method RunPosted()
      requires Valid() && Accounted(Value(), [], [])
      modifies this, handlers, timeouts
      ensures Valid() && Value() == RunCallbacks(old(Value()))
      ensures Accounted(Value(), [], [])
    {
      RunCallbacksKeeps(Value());
      var batch := callbacks;
      callbacks := [];
      ghost var start := Value();
      assert old(Value()).trace.ran + [] + batch == start.trace.ran + batch + [];
      var i := 0;
      while i < |batch|
        invariant 0 <= i <= |batch|
        invariant Valid()
        invariant Accounted(Value(), batch[i..], [])
        invariant RunTasks(start, batch) == RunTasks(Value(), batch[i..])
      {
        RunTaskKeeps(Value(), batch[i..], []);
        assert batch[i..][1..] == batch[i + 1..];
        if !aborted {
          trace := trace.(ran := trace.ran + [batch[i]]);
          Invoke(batch[i].callback);
        }
        i := i + 1;
      }
    }

    /** Fires one batch of due events, in order; their callbacks may call back in. */
    method FireBatch(batch: seq<Event<Script>>, now: int)
      requires Valid() && Accounted(Value(), [], batch) && forall e <- batch :: e.expiration <= now
      modifies this, handlers, timeouts
      ensures Valid() && Value() == FireAll(old(Value()), batch, now)
      ensures Accounted(Value(), [], [])
    {
      var i := 0;
      while i < |batch|
        invariant 0 <= i <= |batch|
        invariant Valid()
        invariant Accounted(Value(), [], batch[i..])
        invariant FireAll(old(Value()), batch, now) == FireAll(Value(), batch[i..], now)
      {
        FireKeeps(Value(), batch[i..], now, []);
        assert batch[i..][1..] == batch[i + 1..];
        if !aborted {
          trace := trace.(fired := trace.fired + [batch[i]], firedAt := trace.firedAt + [now]);
          Invoke(batch[i].callback);
        }
        i := i + 1;
      }
    }

    /** One pass of runInternal: move the due events out of the queue, then fire them. */
    method FireDue(now: int)
      requires Valid() && Accounted(Value(), [], [])
      modifies this, handlers, timeouts
      ensures Valid() && Accounted(Value(), [], [])
      ensures Value() == RunOnce(old(Value()), now)
    {
      DueSplits(timeouts.Value(), IDS_64, now);
      TakeDueKeeps(Value(), now, []);
      var expired := timeouts.TakeDue(now);
      FireBatch(expired, now);
    }

    /** runInternal of the timer queue. */
    method RunTimeouts(now: int, onceOnly: bool) returns (next: int)
      requires Valid() && Accounted(Value(), [], []) && (!onceOnly ==> now < INT64_MAX)
      modifies this, handlers, timeouts
      ensures Valid() && Accounted(Value(), [], [])
      ensures Value() == if onceOnly then RunOnce(old(Value()), now) else RunLoop(old(Value()), now)
      ensures next == Soonest(timeouts.Value())
    {
      FireDue(now);
      next := timeouts.NextExpiration();
      if onceOnly {
        return;
      }
      ghost var before := old(Value());
      while !aborted && next <= now
        invariant Valid() && Accounted(Value(), [], [])
        invariant next == Soonest(timeouts.Value())
        invariant Value() == RunOnce(before, now)
        invariant RunLoop(before, now) == RunLoop(old(Value()), now)
        decreases Weight(before.timers.events)
      {
        RunLoopStep(before, now);
        before := Value();
        FireDue(now);
        next := timeouts.NextExpiration();
      }
    }

    /** How long the loop may sleep in the poll. */
    method ComputePollTimeout(now: int) returns (pollTimeout: int)
      requires Valid()
      ensures pollTimeout == PollTimeout(Value(), now)
    {
      pollTimeout := POLL_LIMIT;
      if callbacks != [] {
        pollTimeout := 0;
      } else if timeouts.NextExpiration() - now < pollTimeout {
        if timeouts.NextExpiration() <= now {
          pollTimeout := 0;
        } else {
          pollTimeout := timeouts.NextExpiration() - now;
        }
      }
    }

    /** The event loop over the ready descriptors of one poll. */
    method DispatchReady(ready: seq<int>)
      requires Valid() && Accounted(Value(), [], [])
      modifies this, handlers, timeouts
      ensures Valid() && Value() == Dispatch(old(Value()), ready)
    {
      var i := 0;
      while i < |ready|
        invariant 0 <= i <= |ready|
        invariant Valid()
        invariant Dispatch(old(Value()), ready) == Dispatch(Value(), ready[i..])
      {
        var fd := ready[i];
        assert ready[i..][1..] == ready[i + 1..];
        if !aborted {
          if !InRange(fd, handlers.Length) {
            aborted := true;
          } else if handlers[fd].Some? {
            Invoke(handlers[fd].value.callback);
          }
        }
        i := i + 1;
      }
    }

    /** What one iteration does before it polls. */
    method RunDue(now: int)
      requires Valid() && Accounted(Value(), [], [])
      modifies this, handlers, timeouts
      ensures Valid() && Accounted(Value(), [], [])
      ensures Value() == RunTimers(RunCallbacks(old(Value())), now)
    {
      hide RunCallbacks, RunOnce, Accounted;
      RunPosted();
      if !timeouts.Empty() {
        var _ := RunTimeouts(now, true);
      }
    }

    /** One iteration of the loop of start(); `polled` is the timeout it handed to the poll, if it did. */
    method OneTurn(tick: Tick) returns (exit: Exit, polled: Option<int>)
      requires Valid() && Accounted(Value(), [], [])
      modifies this, handlers, timeouts
      ensures Valid() && Accounted(Value(), [], [])
      ensures (Value(), exit) == Turn(old(Value()), tick)
      ensures polled == (if exit == Going
        then Some(PollTimeout(RunTimers(RunCallbacks(old(Value())), tick.timerNow), tick.pollNow)) else None)
      ensures exit == Exhausted ==> running
    {
      hide RunCallbacks, RunTimers, Dispatch, Accounted;
      TurnKeeps(Value(), tick);
      RunDue(tick.timerNow);
      polled := None;
      if aborted {
        exit := Aborted;
      } else if !running {
        exit := Stopped;
      } else if handleNum <= 0 && callbacks == [] && timeouts.Empty() {
        exit := Exhausted;
      } else {
        exit := Going;
        var timeout := ComputePollTimeout(tick.pollNow);
        polled := Some(timeout);
        DispatchReady(tick.ready);
      }
    }

    /** start(), over the iterations the outside supplies; `polls` are the timeouts handed to the poll. */
    method Start(ticks: seq<Tick>) returns (result: int, exit: Exit, polls: seq<int>)
      requires Valid() && Accounted(Value(), [], [])
      modifies this, handlers, timeouts
      ensures Valid() && Accounted(Value(), [], [])
      ensures old(running) ==> result == -1 && Value() == old(Value())
      ensures !old(running) ==>
        && result == 0 && (Value(), exit) == Turns(old(Value()).(running := true), ticks)
        && polls == Polls(old(Value()).(running := true), ticks)
      ensures exit == Exhausted && result == 0 ==> running
    {
      hide Turn, Accounted;
      exit, polls := Going, [];
      if running {
        return -1, exit, polls;
      }
      SetRunning();
      ghost var start := Value();
      var i := 0;
      while i < |ticks| && exit == Going
        invariant 0 <= i <= |ticks|
        invariant Valid() && Accounted(Value(), [], [])
        invariant exit == Going ==> Turns(start, ticks) == Turns(Value(), ticks[i..])
        invariant exit == Going ==> Polls(start, ticks) == polls + Polls(Value(), ticks[i..])
        invariant exit != Going ==> Turns(start, ticks) == (Value(), exit) && Polls(start, ticks) == polls
        invariant exit == Exhausted ==> running
      {
        ghost var before, done := Value(), polls;
        var polled: Option<int>;
        exit, polled := OneTurn(ticks[i]);
        if polled.Some? {
          polls := polls + [polled.value];
        }
        TurnSplits(before, ticks, i, done);
        i := i + 1;
      }
      return 0, exit, polls;
    }

    method SetRunning()
      requires Valid() && Accounted(Value(), [], [])
      modifies this`running
      ensures Valid() && Accounted(Value(), [], []) && Value() == old(Value()).(running := true)
    {
      running := true;
    }
  }

  /** The first of the remaining iterations, and the rest. */
  lemma TurnSplits(w: World, ticks: seq<Tick>, i: nat, polls: seq<int>)
    requires i < |ticks|
    ensures var (w', exit) := Turn(w, ticks[i]);
      && Turns(w, ticks[i..]) == (if exit != Going then (w', exit) else Turns(w', ticks[i + 1..]))
      && polls + Polls(w, ticks[i..]) ==
         if exit != Going then polls
         else polls + [PollTimeout(RunTimers(RunCallbacks(w), ticks[i].timerNow), ticks[i].pollNow)]
              + Polls(w', ticks[i + 1..])
  {
    hide RunCallbacks, RunTimers, Dispatch, PollTimeout;
    assert ticks[i..][0] == ticks[i] && ticks[i..][1..] == ticks[i + 1..];
    assert polls + [] == polls;
  }
}
