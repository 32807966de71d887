/**
 One stream inside a running loop, any step of one between any steps of the other: every notice
 the stream posts is run in the order posted, and its close notice after all the others.
 */
module StreamInLoop {
  import opened Common
  import opened Timers
  import opened LoopModel
  import opened LoopProofs
  import opened Buffers
  import opened StreamModel
  import opened StreamProofs
  import opened StreamClosed
  import opened StreamGrows

  // -------------------------------------------------------------------- the two together

  /**
   A loop with what is left of its swapped-out batch and of its due timers, the stream at a
   descriptor, and where in the loop's posting order each notice of the stream stands.
   */
  datatype Both = Both(
    w: World, rest: seq<Task>, batch: seq<Event<Script>>, fd: int, s: Stream, at: seq<nat>)

  datatype Happening =
    | StreamDoes(op: Op)
    | OthersPost(task: Task)
    | Calls(cmd: Cmd)
    | SwapsCallbacks
    | RunsNext
    | TakesDue(now: int)
    | FiresNext(now: int)

  /** What an operation of the stream does to the loop: its notices are posted, its slot follows. */
  function Carried(w: World, fd: int, s: Stream, s': Stream): World
    requires s.posted <= s'.posted
  {
    var more := s'.posted[|s.posted|..];
    var w1 := w.(callbacks := w.callbacks + more, trace := w.trace.(posted := w.trace.posted + more));
    if s'.slot == s.slot || !InRange(fd, |w.slots|) then w1
    else if s'.slot.None? then
      w1.(slots := w.slots[fd := None], handleNum := w.handleNum - Holds(w.slots, fd))
    else
      w1.(slots := w.slots[fd := Some(Handler(s'.slot.value, Script([Enter(HandleEventsEntry)])))],
          handleNum := w.handleNum - Holds(w.slots, fd) + 1)
  }

  function Onwards(from: nat, n: nat): (ks: seq<nat>)
    ensures |ks| == n && forall i :: 0 <= i < n ==> ks[i] == from + i
  {
    seq(n, i requires 0 <= i < n => from + i)
  }

  function Happens(b: Both, fill: Fill, h: Happening): Both {
    if b.w.aborted then b else
    match h
    case StreamDoes(op) =>
      var s' := StreamModel.Step(b.s, fill, op);
      StepGrows(b.s, fill, op);
      b.(w := Carried(b.w, b.fd, b.s, s'), s := s',
         at := b.at + Onwards(|b.w.trace.posted|, |s'.posted| - |b.s.posted|))
    case OthersPost(task) => b.(w := Post(b.w, task))
    case Calls(cmd) => b.(w := Exec(b.w, cmd))
    case SwapsCallbacks => if b.rest != [] then b else b.(w := b.w.(callbacks := []), rest := b.w.callbacks)
    case RunsNext => if b.rest == [] then b else b.(w := RunTask(b.w, b.rest[0]), rest := b.rest[1..])
    case TakesDue(now) =>
      if b.batch != [] then b
      else b.(w := b.w.(timers := Later(b.w.timers, now)), batch := Due(b.w.timers, now))
    case FiresNext(now) =>
      if b.batch == [] || b.batch[0].expiration > now then b
      else b.(w := Fire(b.w, b.batch[0], now), batch := b.batch[1..])
  }

  function AllHappen(b: Both, fill: Fill, hs: seq<Happening>): Both
    decreases |hs|
  {
    if hs == [] then b else AllHappen(Happens(b, fill, hs[0]), fill, hs[1..])
  }

  /** The stream's calls are those its assertions permit, and none harms it once closed. */
  ghost predicate CanHappen(b: Both, fill: Fill, hs: seq<Happening>)
    decreases |hs|
  {
    hs == [] ||
    ((hs[0].StreamDoes? ==> Permitted(b.s, hs[0].op) && Harmless(b.s, fill, hs[0].op))
     && CanHappen(Happens(b, fill, hs[0]), fill, hs[1..]))
  }

  // ---------------------------------------------------------------------- the invariant

  /** The notices stand in the loop's posting order, in the stream's own. */
  ghost predicate Embedded(posted: seq<Task>, at: seq<nat>, all: seq<Task>) {
    && |at| == |posted|
    && (forall i, j :: 0 <= i < j < |at| ==> at[i] < at[j])
    && (forall i :: 0 <= i < |at| ==> at[i] < |all| && all[at[i]] == posted[i])
  }

  ghost predicate Joined(b: Both) {
    && Accounted(b.w, b.rest, b.batch) && Sound(b.s) && b.fd >= MIN_FD
    && Embedded(b.s.posted, b.at, b.w.trace.posted)
  }

  lemma EmbeddedGrows(posted: seq<Task>, at: seq<nat>, all: seq<Task>, all': seq<Task>)
    requires Embedded(posted, at, all) && all <= all'
    ensures Embedded(posted, at, all')
  {
  }

  lemma EmbeddedExtends(posted: seq<Task>, at: seq<nat>, all: seq<Task>, more: seq<Task>)
    requires Embedded(posted, at, all)
    ensures Embedded(posted + more, at + Onwards(|all|, |more|), all + more)
  {
  }

  lemma StreamJoins(b: Both, fill: Fill, op: Op)
    requires Joined(b) && Permitted(b.s, op) && Harmless(b.s, fill, op)
    ensures Joined(Happens(b, fill, StreamDoes(op)))
  {
    hide StreamModel.Step, Accounted, Sound, Harmless, Permitted;
    if !b.w.aborted {
      var s' := StreamModel.Step(b.s, fill, op);
      StepSoundIff(b.s, fill, op);
      StepGrows(b.s, fill, op);
      var more := s'.posted[|b.s.posted|..];
      assert s'.posted == b.s.posted + more;
      PostsAndHoldsKeeps(b.w, Carried(b.w, b.fd, b.s, s'), b.fd, more, b.rest, b.batch);
      EmbeddedExtends(b.s.posted, b.at, b.w.trace.posted, more);
    }
  }

  lemma {:induction false} CmdsPostMore(w: World, cmds: seq<Cmd>)
    ensures w.trace.posted <= RunCmds(w, cmds).trace.posted
    decreases |cmds|
  {
    if cmds != [] { CmdsPostMore(Exec(w, cmds[0]), cmds[1..]); }
  }

  lemma SwapJoins(b: Both)
    requires Joined(b) && !b.w.aborted && b.rest == []
    ensures Accounted(b.w.(callbacks := []), b.w.callbacks, b.batch)
  {
    assert b.w.trace.ran + [] + b.w.callbacks == b.w.trace.ran + b.w.callbacks + [];
  }

  lemma RunNextJoins(b: Both)
    requires Joined(b) && !b.w.aborted && b.rest != []
    ensures var w' := RunTask(b.w, b.rest[0]);
      Accounted(w', b.rest[1..], b.batch) && b.w.trace.posted <= w'.trace.posted
  {
    hide Accounted, Sound, Embedded;
    RunTaskKeeps(b.w, b.rest, b.batch);
    CmdsPostMore(b.w.(trace := b.w.trace.(ran := b.w.trace.ran + [b.rest[0]])), b.rest[0].callback.cmds);
  }

  lemma FireNextJoins(b: Both, now: int)
    requires Joined(b) && !b.w.aborted && b.batch != [] && b.batch[0].expiration <= now
    ensures var w' := Fire(b.w, b.batch[0], now);
      Accounted(w', b.rest, b.batch[1..]) && b.w.trace.posted <= w'.trace.posted
  {
    hide Accounted, Sound, Embedded;
    FireKeeps(b.w, b.batch, now, b.rest);
    var tr := b.w.trace;
    CmdsPostMore(b.w.(trace := tr.(fired := tr.fired + [b.batch[0]], firedAt := tr.firedAt + [now])),
                 b.batch[0].callback.cmds);
  }

  lemma CallJoins(b: Both, cmd: Cmd)
    requires Joined(b) && !b.w.aborted
    ensures Accounted(Exec(b.w, cmd), b.rest, b.batch) && b.w.trace.posted <= Exec(b.w, cmd).trace.posted
  {
    ExecKeeps(b.w, cmd, b.rest, b.batch);
  }

  lemma HappensJoins(b: Both, fill: Fill, h: Happening)
    requires Joined(b) && (h.StreamDoes? ==> Permitted(b.s, h.op) && Harmless(b.s, fill, h.op))
    ensures Joined(Happens(b, fill, h))
  {
    hide Accounted, Sound, Harmless, Permitted, Embedded, Exec, RunTask, Fire;
    var b' := Happens(b, fill, h);
    if !b.w.aborted {
      match h {
      case StreamDoes(op) => StreamJoins(b, fill, op);
      case OthersPost(task) => PostKeeps(b.w, task, b.rest, b.batch);
      case Calls(cmd) => CallJoins(b, cmd);
      case SwapsCallbacks => if b.rest == [] { SwapJoins(b); }
      case RunsNext => if b.rest != [] { RunNextJoins(b); }
      case TakesDue(now) => if b.batch == [] { TakeDueKeeps(b.w, now, b.rest); }
      case FiresNext(now) => if b.batch != [] && b.batch[0].expiration <= now { FireNextJoins(b, now); }
      }
      if !h.StreamDoes? { EmbeddedGrows(b.s.posted, b.at, b.w.trace.posted, b'.w.trace.posted); }
    }
  }

  lemma {:induction false} AllHappenJoined(b: Both, fill: Fill, hs: seq<Happening>)
    requires Joined(b) && CanHappen(b, fill, hs)
    ensures Joined(AllHappen(b, fill, hs))
    decreases |hs|
  {
    if hs != [] {
      HappensJoins(b, fill, hs[0]);
      AllHappenJoined(Happens(b, fill, hs[0]), fill, hs[1..]);
    }
  }

  /**
   Whatever the loop, the timers, the handlers and the stream do and in whatever order: a notice of
   the stream that has run, ran after all it had posted before; and once its close callback has
   run, every data, connect and write callback it ever posted had run before it.
   */
  lemma ClosesLast(w: World, fd: int, s: Stream, fill: Fill, hs: seq<Happening>)
    requires Accounted(w, [], []) && fd >= MIN_FD && Fresh(s)
    requires CanHappen(Both(w, [], [], fd, s, []), fill, hs)
    ensures var b := AllHappen(Both(w, [], [], fd, s, []), fill, hs);
      var posted, ran := b.s.posted, b.w.trace.ran;
      !b.w.aborted ==>
        && |b.at| == |posted|
        && (forall i, j :: 0 <= i < j < |posted| && b.at[j] < |ran| ==>
              b.at[i] < b.at[j] && ran[b.at[i]] == posted[i] && ran[b.at[j]] == posted[j])
        && (forall j :: 0 <= j < |posted| && posted[j].kind.CloseDone? ==> j == |posted| - 1)
  {
    var b0 := Both(w, [], [], fd, s, []);
    assert Joined(b0);
    AllHappenJoined(b0, fill, hs);
  }

  // ------------------------------------------------------------------- the stream's slot

  /** What the loop watches a descriptor for. */
  function Interest(slots: seq<Option<Handler>>, fd: int): Option<Mask> {
    if !InRange(fd, |slots|) || slots[fd].None? then None else Some(slots[fd].value.interest)
  }

  /** While the stream is open the loop watches its descriptor for exactly what it waits for. */
  ghost predicate Watched(b: Both) {
    && b.s.reachable == InRange(b.fd, |b.w.slots|)
    && (!b.s.closed ==> Interest(b.w.slots, b.fd) == b.s.slot)
  }

  /** A call that leaves a descriptor alone. */
  predicate Spares(cmd: Cmd, fd: int) {
    match cmd
    case AddHandler(other, _, _) => other != fd
    case UpdateHandler(other, _) => other != fd
    case RemoveHandler(other) => other != fd
    case _ => true
  }

  /** The calls made into the loop by what happens next. */
  function CallsMade(b: Both, h: Happening): seq<Cmd> {
    match h
    case Calls(cmd) => [cmd]
    case RunsNext => if b.rest == [] then [] else b.rest[0].callback.cmds
    case FiresNext(now) => if b.batch == [] then [] else b.batch[0].callback.cmds
    case _ => []
  }

  /** Nobody else uses the descriptor of the stream while it is open. */
  ghost predicate Spared(b: Both, fill: Fill, hs: seq<Happening>)
    decreases |hs|
  {
    hs == [] ||
    ((!b.s.closed ==> forall cmd <- CallsMade(b, hs[0]) :: Spares(cmd, b.fd))
     && Spared(Happens(b, fill, hs[0]), fill, hs[1..]))
  }

  lemma {:induction false} CmdsSpare(w: World, cmds: seq<Cmd>, fd: int)
    requires forall cmd <- cmds :: Spares(cmd, fd)
    ensures var w' := RunCmds(w, cmds);
      |w'.slots| == |w.slots| && Interest(w'.slots, fd) == Interest(w.slots, fd)
    decreases |cmds|
  {
    if cmds != [] {
      ExecSpares(w, cmds[0], fd);
      CmdsSpare(Exec(w, cmds[0]), cmds[1..], fd);
    }
  }

  lemma ExecSpares(w: World, cmd: Cmd, fd: int)
    ensures |Exec(w, cmd).slots| == |w.slots|
    ensures Spares(cmd, fd) ==> Interest(Exec(w, cmd).slots, fd) == Interest(w.slots, fd)
  {
  }

  lemma {:induction false} CmdsKeepTable(w: World, cmds: seq<Cmd>)
    ensures |RunCmds(w, cmds).slots| == |w.slots|
    decreases |cmds|
  {
    if cmds != [] {
      ExecSpares(w, cmds[0], 0);
      CmdsKeepTable(Exec(w, cmds[0]), cmds[1..]);
    }
  }

  lemma CallsSpare(w: World, w': World, cmds: seq<Cmd>, fd: int)
    requires w'.slots == w.slots
    ensures |RunCmds(w', cmds).slots| == |w.slots|
    ensures (forall cmd <- cmds :: Spares(cmd, fd)) ==> Interest(RunCmds(w', cmds).slots, fd) == Interest(w.slots, fd)
  {
    CmdsKeepTable(w', cmds);
    if forall cmd <- cmds :: Spares(cmd, fd) { CmdsSpare(w', cmds, fd); }
  }

  lemma StreamIsWatched(b: Both, fill: Fill, op: Op)
    requires Joined(b) && Watched(b) && Permitted(b.s, op) && Harmless(b.s, fill, op)
    ensures Watched(Happens(b, fill, StreamDoes(op)))
  {
    hide StreamModel.Step, Accounted, Harmless, Permitted, Embedded, Disciplined, CloseIsLast;
    StepSoundIff(b.s, fill, op);
    StepGrows(b.s, fill, op);
  }

  lemma OthersKeepWatch(b: Both, fill: Fill, h: Happening)
    requires Watched(b) && !h.StreamDoes? && (!b.s.closed ==> forall cmd <- CallsMade(b, h) :: Spares(cmd, b.fd))
    ensures Watched(Happens(b, fill, h))
  {
    hide RunCmds;
    match h {
    case Calls(cmd) => ExecSpares(b.w, cmd, b.fd);
    case RunsNext =>
      if b.rest != [] {
        var tr := b.w.trace;
        CallsSpare(b.w, b.w.(trace := tr.(ran := tr.ran + [b.rest[0]])), b.rest[0].callback.cmds, b.fd);
      }
    case FiresNext(now) =>
      if b.batch != [] {
        var tr := b.w.trace;
        CallsSpare(b.w, b.w.(trace := tr.(fired := tr.fired + [b.batch[0]], firedAt := tr.firedAt + [now])),
                   b.batch[0].callback.cmds, b.fd);
      }
    case _ =>
    }
  }

  lemma {:induction false} AllHappenWatched(b: Both, fill: Fill, hs: seq<Happening>)
    requires Joined(b) && CanHappen(b, fill, hs) && Watched(b) && Spared(b, fill, hs)
    ensures Watched(AllHappen(b, fill, hs))
    decreases |hs|
  {
    hide Joined, Watched, Happens, Permitted, Harmless;
    if hs != [] {
      HappensJoins(b, fill, hs[0]);
      if hs[0].StreamDoes? { StreamIsWatched(b, fill, hs[0].op); } else { OthersKeepWatch(b, fill, hs[0]); }
      AllHappenWatched(Happens(b, fill, hs[0]), fill, hs[1..]);
    }
  }

  /**
   As long as nobody else uses its descriptor, then, whatever the loop, the timers and the other
   handlers do: an open stream is watched by the loop for exactly the mask it waits with, and for
   nothing when it waits for nothing.
   */
  lemma LoopWatchesTheStream(w: World, fd: int, s: Stream, fill: Fill, hs: seq<Happening>)
    requires Accounted(w, [], []) && fd >= MIN_FD && Fresh(s)
    requires s.reachable == InRange(fd, |w.slots|) && Interest(w.slots, fd) == None
    requires CanHappen(Both(w, [], [], fd, s, []), fill, hs) && Spared(Both(w, [], [], fd, s, []), fill, hs)
    ensures var b := AllHappen(Both(w, [], [], fd, s, []), fill, hs);
      !b.s.closed ==>
        Interest(b.w.slots, fd) == if b.s.state == NONE || !InRange(fd, |b.w.slots|) then None else Some(b.s.state)
  {
    var b0 := Both(w, [], [], fd, s, []);
    assert Joined(b0) && Watched(b0);
    AllHappenJoined(b0, fill, hs);
    AllHappenWatched(b0, fill, hs);
    SameDescriptor(b0, fill, hs);
  }

  lemma {:induction false} SameDescriptor(b: Both, fill: Fill, hs: seq<Happening>)
    ensures AllHappen(b, fill, hs).fd == b.fd
    decreases |hs|
  {
    if hs != [] { SameDescriptor(Happens(b, fill, hs[0]), fill, hs[1..]); }
  }
}
