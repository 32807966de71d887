/**
 Runs of counted reads and read events, where sizes alone decide: the condition on a run is then one
 on its figures, whatever the payload.
 */
module StreamCounted {
  import opened Common
  import opened LoopModel
  import opened Buffers
  import opened StreamModel
  import opened StreamFill
  import opened StreamOrder

  /** How many bytes are unread, and how many the pending request wants. */
  datatype Figures = Figures(held: nat, wanted: nat)

  /** Serving the pending request once it is all there. */
  function Settle(f: Figures): Figures {
    if f.wanted > 0 && f.held >= f.wanted then Figures(f.held - f.wanted, 0) else f
  }

  predicate Served(f: Figures, t: Turn) { t.Ask? && f.held >= t.n }

  function Onwards(f: Figures, t: Turn): Figures {
    if Served(f, t) then Figures(f.held - t.n, f.wanted)
    else Settle(Figures(f.held + |Flatten(t.parts)|, if t.Ask? then t.n else f.wanted))
  }

  /** One request at a time, chunks as read() gives them, and a chunk of room left after them. */
  ghost predicate FitsFigures(f: Figures, t: Turn) {
    && !t.Seek? && (t.Ask? ==> t.n > 0 && f.wanted == 0)
    && (Served(f, t) ==> t.parts == [])
    && ChunkSized(t.parts) && f.held + |Flatten(t.parts)| + READ_CHUNK <= DEFAULT_SIZE
  }

  ghost predicate AllFitFigures(f: Figures, turns: seq<Turn>)
    decreases |turns|
  {
    turns == [] || (FitsFigures(f, turns[0]) && AllFitFigures(Onwards(f, turns[0]), turns[1..]))
  }

  /** Every turn reads nothing, or one chunk into an empty buffer. */
  predicate AllGentleFigures(f: Figures, turns: seq<Turn>)
    decreases |turns|
  {
    turns == [] ||
    ((|turns[0].parts| == 0 || (|turns[0].parts| == 1 && f.held == 0))
     && AllGentleFigures(Onwards(f, turns[0]), turns[1..]))
  }

  /** Figures do not depend on the payload. */
  lemma SameFigures(f: Figures, t: Turn, u: Turn)
    requires SameTurn(t, u)
    ensures Onwards(f, t) == Onwards(f, u) && (FitsFigures(f, t) ==> FitsFigures(f, u))
  {
    SameLength(t.parts, u.parts);
    if ChunkSized(t.parts) {
      forall i | 0 <= i < |u.parts| ensures 0 < |u.parts[i]| <= READ_CHUNK { assert |t.parts[i]| == |u.parts[i]|; }
    }
  }

  lemma {:induction false} AllSameFigures(f: Figures, turns: seq<Turn>, others: seq<Turn>)
    requires SameTurns(turns, others) && AllFitFigures(f, turns)
    ensures AllFitFigures(f, others) && (AllGentleFigures(f, turns) <==> AllGentleFigures(f, others))
    decreases |turns|
  {
    if turns != [] {
      SameTurnsTail(turns, others);
      SameFigures(f, turns[0], others[0]);
      AllSameFigures(Onwards(f, turns[0]), turns[1..], others[1..]);
    }
  }

  /** An open connected stream, its counted reads at these figures. */
  ghost predicate At(s: Stream, f: Figures) {
    && Ready(s) && Readable(s.readBuf) == f.held && s.readBytes == f.wanted
    && s.readDelimiter == "" && !s.readUntilClose
  }

  lemma FitsAlike(s: Stream, f: Figures, t: Turn)
    requires At(s, f) && FitsFigures(f, t)
    ensures Fits(s, t) && (AtOnce(s, t) <==> Served(f, t))
    ensures GentleTurn(s, t) <==> |t.parts| == 0 || (|t.parts| == 1 && f.held == 0)
  {
  }

  lemma ReadSettles(s: Stream, f: Figures, parts: seq<string>)
    requires At(s, f) && FitsFigures(f, More(parts))
    ensures var (s', failed) := HandleRead(s, AtReadEnd, Chunks(parts, WouldBlock));
      !failed && At(s', Settle(Figures(f.held + |Flatten(parts)|, f.wanted)))
  {
    hide ReadPass;
    PassFits(s, parts);
  }

  lemma AskSettles(s: Stream, f: Figures, n: nat, parts: seq<string>, cb: Option<Script>)
    requires At(s, f) && FitsFigures(f, Ask(n, parts)) && f.held < n
    ensures At(After(s, Ask(n, parts), cb), Onwards(f, Ask(n, parts)))
  {
    hide HandleRead, Chunks;
    var asked := Requested(s, Count(n), cb).(readBytes := n, readCb := cb);
    ReadSettles(asked, Figures(f.held, n), parts);
  }

  lemma MoreSettles(s: Stream, f: Figures, parts: seq<string>, cb: Option<Script>)
    requires At(s, f) && FitsFigures(f, More(parts))
    ensures At(After(s, More(parts), cb), Onwards(f, More(parts)))
  {
    hide HandleRead, Chunks;
    ReadSettles(s, f, parts);
  }

  lemma TurnSettles(s: Stream, f: Figures, t: Turn, cb: Option<Script>)
    requires At(s, f) && FitsFigures(f, t)
    ensures At(After(s, t, cb), Onwards(f, t))
  {
    hide HandleEvents, StartRead, Contents;
    match t {
    case Ask(n, parts) => if f.held < n { AskSettles(s, f, n, parts, cb); }
    case More(parts) => MoreSettles(s, f, parts, cb);
    }
  }

  /** The run by its figures. */
  lemma {:induction false} RunByFigures(s: Stream, f: Figures, turns: seq<Turn>, cb: Option<Script>)
    requires At(s, f) && AllFitFigures(f, turns)
    ensures AllFit(s, turns, cb) && (AllGentle(s, turns, cb) <==> AllGentleFigures(f, turns))
    decreases |turns|
  {
    hide At, Fits, FitsFigures, GentleTurn, After, Onwards;
    if turns != [] {
      FitsAlike(s, f, turns[0]);
      TurnSettles(s, f, turns[0], cb);
      RunByFigures(After(s, turns[0], cb), Onwards(f, turns[0]), turns[1..], cb);
    }
  }

  /**
   For every shape of a run of counted reads and read events: at its end the code has delivered, and
   holds, what it received in the order it came, for all payloads of that shape, if and only if every
   pass read nothing, or one chunk into an empty buffer.
   */
  lemma CodedRunIsFifoIff(s: Stream, f: Figures, turns: seq<Turn>, cb: Option<Script>)
    requires At(s, f) && InOrder(s) && AllFitFigures(f, turns)
    ensures (forall others :: SameTurns(turns, others) ==> InOrder(Ends(s, others, cb))) <==> AllGentleFigures(f, turns)
  {
    hide AllFit, AllGentle, AllFitFigures, AllGentleFigures, SameTurns, InOrder, Ends;
    forall others | SameTurns(turns, others)
      ensures AllFit(s, others, cb) && (AllGentle(s, others, cb) <==> AllGentleFigures(f, turns))
    {
      AllSameFigures(f, turns, others);
      RunByFigures(s, f, others, cb);
    }
    SameTurnsSelf(turns);
    CodedReadsAreFifoIff(s, turns, cb);
  }
}
