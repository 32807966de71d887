/**
 What one event loop does, on values: command scripts standing for user callbacks, the
 deferred-callback queue, the timers and the handler table, with a trace of everything that
 was posted, run, added, erased and fired.
 */
module LoopModel {
  import opened Common
  import opened Timers

  const MIN_FD: int := 3
  const POLL_LIMIT: int := 60 * 1000

  /** An epoll interest or event mask, by the three groups of bits the library names. */
  datatype Mask = Mask(read: bool, write: bool, error: bool) {
    function Union(m: Mask): Mask { Mask(read || m.read, write || m.write, error || m.error) }
    predicate Empty() { !read && !write && !error }
  }
  const NONE := Mask(false, false, false)
  const READ := Mask(true, false, false)
  const WRITE := Mask(false, true, false)
  const ERROR := Mask(false, false, true)

  /** The members of the library that are themselves bound as callbacks. */
  datatype Entry = HandleEventsEntry | HeadersEntry | BodyEntry | StreamClosedEntry | WriteCompleteEntry

  /** A callback: the calls it makes back into the loop. Clock readings are supplied. */
  datatype Script = Script(cmds: seq<Cmd>)
  datatype Cmd =
    | AddTimeout(now: int, delay: int, callback: Script)
    | RemoveTimeout(id: nat)
    | AddCallback(callback: Script)
    | AddHandler(fd: int, interest: Mask, callback: Script)
    | UpdateHandler(fd: int, interest: Mask)
    | RemoveHandler(fd: int)
    | Stop
    | Enter(entry: Entry) // what it does is not the loop's: see the stream and the connection

  /** What a deferred callback was posted for. */
  datatype Kind = Plain | ReadDone(data: string) | ConnectDone(err: int) | WriteDone | CloseDone
  datatype Task = Task(kind: Kind, callback: Script)

  datatype Handler = Handler(interest: Mask, callback: Script)

  datatype Trace = Trace(
    posted: seq<Task>, ran: seq<Task>,
    adds: nat, added: seq<Event<Script>>, erased: seq<Event<Script>>,
    fired: seq<Event<Script>>, firedAt: seq<int>)

  /** `aborted` records a failed assertion of the library: the process is gone. */
  datatype World = World(
    slots: seq<Option<Handler>>, handleNum: int,
    callbacks: seq<Task>, timers: Timers<Script>,
    running: bool, aborted: bool, trace: Trace)

  predicate InRange(fd: int, slots: int) { MIN_FD <= fd < slots }

  function Occupied(slots: seq<Option<Handler>>): nat {
    if slots == [] then 0 else (if slots[0].Some? then 1 else 0) + Occupied(slots[1..])
  }

  // -------------------------------------------------------------------- commands

  function Post(w: World, task: Task): World {
    w.(callbacks := w.callbacks + [task], trace := w.trace.(posted := w.trace.posted + [task]))
  }

  function WithAdd(w: World, t: Timers<Script>, added: seq<Event<Script>>): World {
    w.(timers := t, trace := w.trace.(adds := w.trace.adds + 1, added := w.trace.added + added))
  }

  function Inserted(t: Timers<Script>, expiration: int, callback: Script): seq<Event<Script>> {
    if HasId(t.events, Proposed(t)) then [] else [Event(Proposed(t), expiration, callback)]
  }

  function DoAddTimeout(w: World, expiration: int, callback: Script): World {
    WithAdd(w, Added(w.timers, IDS_64, expiration, callback), Inserted(w.timers, expiration, callback))
  }

  function DoRemoveTimeout(w: World, id: nat): World {
    if !HasId(w.timers.events, id) then w
    else w.(timers := Erased(w.timers, id),
            trace := w.trace.(erased := w.trace.erased + [w.timers.events[IndexOf(w.timers.events, id)]]))
  }

  function DoAddHandler(w: World, fd: int, interest: Mask, callback: Script): World {
    if !InRange(fd, |w.slots|) then w
    else if w.slots[fd].Some? then w.(aborted := true)
    else w.(slots := w.slots[fd := Some(Handler(interest.Union(ERROR), callback))], handleNum := w.handleNum + 1)
  }

  function DoUpdateHandler(w: World, fd: int, interest: Mask): World {
    if !InRange(fd, |w.slots|) || w.slots[fd].None? then w
    else w.(slots := w.slots[fd := Some(w.slots[fd].value.(interest := interest.Union(ERROR)))])
  }

  function DoRemoveHandler(w: World, fd: int): World {
    if !InRange(fd, |w.slots|) || w.slots[fd].None? then w
    else w.(slots := w.slots[fd := None], handleNum := w.handleNum - 1)
  }

  function Exec(w: World, cmd: Cmd): World {
    if w.aborted then w else
    match cmd
    case AddTimeout(now, delay, callback) => DoAddTimeout(w, now + delay, callback)
    case RemoveTimeout(id) => DoRemoveTimeout(w, id)
    case AddCallback(callback) => Post(w, Task(Plain, callback))
    case AddHandler(fd, interest, callback) => DoAddHandler(w, fd, interest, callback)
    case UpdateHandler(fd, interest) => DoUpdateHandler(w, fd, interest)
    case RemoveHandler(fd) => DoRemoveHandler(w, fd)
    case Stop => w.(running := false)
    case Enter(_) => w
  }

  function RunCmds(w: World, cmds: seq<Cmd>): World
    decreases |cmds|
  {
    if cmds == [] then w else RunCmds(Exec(w, cmds[0]), cmds[1..])
  }

  /** Runs one callback of the swapped-out batch. */
  function RunTask(w: World, task: Task): World {
    if w.aborted then w
    else RunCmds(w.(trace := w.trace.(ran := w.trace.ran + [task])), task.callback.cmds)
  }

  function RunTasks(w: World, tasks: seq<Task>): World
    decreases |tasks|
  {
    if tasks == [] then w else RunTasks(RunTask(w, tasks[0]), tasks[1..])
  }

  /** Fires one event of the due batch. */
  function Fire(w: World, e: Event<Script>, now: int): World {
    if w.aborted then w
    else RunCmds(w.(trace := w.trace.(fired := w.trace.fired + [e], firedAt := w.trace.firedAt + [now])),
                 e.callback.cmds)
  }

  function FireAll(w: World, batch: seq<Event<Script>>, now: int): World
    decreases |batch|
  {
    if batch == [] then w else FireAll(Fire(w, batch[0], now), batch[1..], now)
  }

  function RunOnce(w: World, now: int): World {
    FireAll(w.(timers := Later(w.timers, now)), Due(w.timers, now), now)
  }

  /** runLoop. With an empty queue nextExpiration is INT64_MAX, so `now` must be below it. */
  function RunLoop(w: World, now: int): World
    requires now < INT64_MAX
    decreases Weight(w.timers.events)
  {
    var w' := RunOnce(w, now);
    if w'.aborted || now < Soonest(w'.timers) then w'
    else
      assert Due(w.timers, now) != [];
      RunOnceLightens(w, now);
      RunLoop(w', now)
  }

  /** One more pass of runLoop, when something is still due after this one. */
  lemma RunLoopStep(w: World, now: int)
    requires now < INT64_MAX && !RunOnce(w, now).aborted && Soonest(RunOnce(w, now).timers) <= now
    ensures RunLoop(w, now) == RunLoop(RunOnce(w, now), now)
    ensures Weight(RunOnce(w, now).timers.events) < Weight(w.timers.events)
  {
    assert Due(w.timers, now) != [];
    RunOnceLightens(w, now);
  }

  // ------------------------------------------------------------------ the main loop

  /** One ready descriptor: the handler registered at that moment, if any, is called. */
  function DispatchOne(w: World, fd: int): World {
    if w.aborted then w
    else if !InRange(fd, |w.slots|) then w.(aborted := true)
    else if w.slots[fd].None? then w
    else RunCmds(w, w.slots[fd].value.callback.cmds)
  }

  function Dispatch(w: World, ready: seq<int>): World
    decreases |ready|
  {
    if ready == [] then w else Dispatch(DispatchOne(w, ready[0]), ready[1..])
  }

  function PollTimeout(w: World, now: int): int {
    if w.callbacks != [] then 0
    else if Soonest(w.timers) - now < POLL_LIMIT then
      if Soonest(w.timers) <= now then 0 else Soonest(w.timers) - now
    else POLL_LIMIT
  }

  /** What the outside supplies to one iteration: two clock readings and the ready descriptors. */
  datatype Tick = Tick(timerNow: int, pollNow: int, ready: seq<int>)

  datatype Exit = Going | Stopped | Exhausted | Aborted

  function RunCallbacks(w: World): World { RunTasks(w.(callbacks := []), w.callbacks) }

  function RunTimers(w: World, now: int): World {
    if w.timers.events == [] then w else RunOnce(w, now)
  }

  function ExitOf(w: World): Exit {
    if w.aborted then Aborted
    else if !w.running then Stopped
    else if w.handleNum <= 0 && w.callbacks == [] && w.timers.events == [] then Exhausted
    else Going
  }

  /** One iteration of start(). */
  function Turn(w: World, tick: Tick): (World, Exit) {
    var w2 := RunTimers(RunCallbacks(w), tick.timerNow);
    var exit := ExitOf(w2);
    (if exit == Going then Dispatch(w2, tick.ready) else w2, exit)
  }

  /** The loop of start() over the iterations the outside supplies. */
  function Turns(w: World, ticks: seq<Tick>): (World, Exit)
    decreases |ticks|
  {
    if ticks == [] then (w, Going)
    else
      var (w', exit) := Turn(w, ticks[0]);
      if exit != Going then (w', exit) else Turns(w', ticks[1..])
  }

  /** The timeouts handed to the poll, one for each iteration that gets that far. */
  function Polls(w: World, ticks: seq<Tick>): seq<int>
    decreases |ticks|
  {
    if ticks == [] then []
    else
      var w2 := RunTimers(RunCallbacks(w), ticks[0].timerNow);
      if ExitOf(w2) != Going then []
      else [PollTimeout(w2, ticks[0].pollNow)] + Polls(Dispatch(w2, ticks[0].ready), ticks[1..])
  }

  // ------------------------------------------------------- a measure for re-adding scripts

  function ScriptWeight(s: Script): nat
    decreases s
  {
    1 + CmdsWeight(s.cmds)
  }

  function CmdsWeight(cmds: seq<Cmd>): nat
    decreases cmds, 0
  {
    if cmds == [] then 0 else CmdWeight(cmds[0]) + CmdsWeight(cmds[1..])
  }

  function CmdWeight(cmd: Cmd): nat
    decreases cmd
  {
    match cmd
    case AddTimeout(_, _, callback) => ScriptWeight(callback)
    case _ => 0
  }

  function Weight(es: seq<Event<Script>>): nat {
    if es == [] then 0 else ScriptWeight(es[0].callback) + Weight(es[1..])
  }

  lemma {:induction false} WeightConcat(a: seq<Event<Script>>, b: seq<Event<Script>>)
    ensures Weight(a + b) == Weight(a) + Weight(b)
  {
    if a == [] {
      assert a + b == b;
    } else {
      assert (a + b)[1..] == a[1..] + b;
      WeightConcat(a[1..], b);
    }
  }

  lemma AddedWeight(t: Timers<Script>, x: int, cb: Script)
    ensures Weight(Added(t, IDS_64, x, cb).events) <= Weight(t.events) + ScriptWeight(cb)
  {
    var es, k, e := t.events, UpperBound(t.events, x), Event(Proposed(t), x, cb);
    assert es == es[..k] + es[k..];
    WeightConcat(es[..k], es[k..]);
    WeightConcat(es[..k] + [e], es[k..]);
    WeightConcat(es[..k], [e]);
  }

  lemma ErasedWeight(t: Timers<Script>, id: nat)
    ensures Weight(Erased(t, id).events) <= Weight(t.events)
  {
    if HasId(t.events, id) {
      var es, k := t.events, IndexOf(t.events, id);
      assert es == es[..k] + ([es[k]] + es[k + 1..]);
      WeightConcat(es[..k], [es[k]] + es[k + 1..]);
      WeightConcat([es[k]], es[k + 1..]);
      WeightConcat(es[..k], es[k + 1..]);
    }
  }

  lemma OtherCmdsLeaveTimers(w: World, cmd: Cmd)
    requires !cmd.AddTimeout? && !cmd.RemoveTimeout?
    ensures Exec(w, cmd).timers == w.timers
  {
  }

  lemma AddLeavesTimers(w: World, now: int, delay: int, callback: Script)
    ensures Exec(w, AddTimeout(now, delay, callback)).timers ==
      if w.aborted then w.timers else Added(w.timers, IDS_64, now + delay, callback)
  {
  }

  lemma ExecAddWeight(w: World, now: int, delay: int, callback: Script)
    ensures Weight(Exec(w, AddTimeout(now, delay, callback)).timers.events)
         <= Weight(w.timers.events) + ScriptWeight(callback)
  {
    hide Exec, Added, Weight, ScriptWeight;
    AddLeavesTimers(w, now, delay, callback);
    AddedWeight(w.timers, now + delay, callback);
  }

  lemma ExecRemoveWeight(w: World, id: nat)
    ensures Weight(Exec(w, RemoveTimeout(id)).timers.events) <= Weight(w.timers.events)
  {
    ErasedWeight(w.timers, id);
  }

  lemma ExecWeight(w: World, cmd: Cmd)
    ensures Weight(Exec(w, cmd).timers.events) <= Weight(w.timers.events) + CmdWeight(cmd)
  {
    match cmd
    case AddTimeout(now, delay, callback) => ExecAddWeight(w, now, delay, callback);
    case RemoveTimeout(id) => ExecRemoveWeight(w, id);
    case _ => OtherCmdsLeaveTimers(w, cmd);
  }

  lemma {:induction false} RunCmdsWeight(w: World, cmds: seq<Cmd>)
    ensures Weight(RunCmds(w, cmds).timers.events) <= Weight(w.timers.events) + CmdsWeight(cmds)
    decreases |cmds|
  {
    if cmds != [] {
      ExecWeight(w, cmds[0]);
      RunCmdsWeight(Exec(w, cmds[0]), cmds[1..]);
    }
  }

  lemma {:induction false} FireAllWeight(w: World, batch: seq<Event<Script>>, now: int)
    ensures Weight(FireAll(w, batch, now).timers.events) + |batch| <= Weight(w.timers.events) + Weight(batch)
    decreases |batch|
  {
    if batch != [] {
      var e := batch[0];
      if !w.aborted {
        RunCmdsWeight(w.(trace := w.trace.(fired := w.trace.fired + [e], firedAt := w.trace.firedAt + [now])),
                      e.callback.cmds);
      }
      FireAllWeight(Fire(w, e, now), batch[1..], now);
    }
  }

  /** Each pass uses up at least one unit per event it fires, whatever the callbacks re-add. */
  lemma RunOnceLightens(w: World, now: int)
    ensures Weight(RunOnce(w, now).timers.events) + |Due(w.timers, now)| <= Weight(w.timers.events)
  {
    var es, k := w.timers.events, UpperBound(w.timers.events, now);
    assert es == es[..k] + es[k..];
    WeightConcat(es[..k], es[k..]);
    FireAllWeight(w.(timers := Later(w.timers, now)), Due(w.timers, now), now);
  }
}
