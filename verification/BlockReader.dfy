/** The whole of the ring-to-memory example: the producer, the consumer that copies blocks into the
    memory, and the backwards reader of module Reader on that memory, as three threads under every
    interleaving. */
module BlockReader {
  import Reader
  import Ring
  import RingToMemory

  /** The memory, the range and the writing flag are those of `w`; `r` is the reader's. */
  datatype State<T> = State(w: RingToMemory.State<T>, r: Reader.State<T>)

  datatype Step<T> = Writing(a: RingToMemory.Step<T>) | Read(offset: int, buffer: seq<T>) | ReaderStep

  function Start<T>(cells: seq<seq<T>>, memory: seq<T>, size: nat): State<T> {
    State(RingToMemory.Start(cells, memory, size), Reader.Begin(memory))
  }

  /** What the reader sees. */
  function View<T>(s: State<T>): Reader.State<T> {
    s.r.(memory := s.w.memory, bkStart := s.w.bkStart, bkEnd := s.w.bkEnd, writing := s.w.writing,
         log := if s.w.bkStart <= |s.w.memory| then s.w.memory[..s.w.bkStart] else [])
  }

  predicate Bounds<T>(s: State<T>) {
    RingToMemory.Bounds(s.w) && Reader.Bounds(View(s))
  }

  /** Aborts end the process. */
  predicate Possible<T>(s: State<T>, a: Step<T>) {
    && !s.r.loop.NegativeOffset? && !s.r.loop.OutOfBounds?
    && RingToMemory.Possible(s.w, if a.Writing? then a.a else RingToMemory.ConsumerStep)
    && (a.Read? ==> s.r.loop.Away?)
  }

  function Next<T>(s: State<T>, a: Step<T>, busy: T): State<T>
    requires Bounds(s)
  {
    match a
    case Writing(b) => s.(w := RingToMemory.Next(s.w, b))
    case Read(offset, buffer) => s.(r := Reader.StartRead(View(s), offset, buffer))
    case ReaderStep =>
      var r := Reader.ReaderMove(View(s), busy);
      State(s.w.(writing := r.writing), r)
  }

  ghost predicate Run<T>(cells: seq<seq<T>>, memory: seq<T>, size: nat, busy: T, ss: seq<State<T>>,
                         steps: seq<Step<T>>)
  {
    && |cells| >= 2
    && |ss| == |steps| + 1
    && ss[0] == Start(cells, memory, size)
    && forall i :: 0 <= i < |steps| ==>
         Possible(ss[i], steps[i]) && Bounds(ss[i]) && ss[i + 1] == Next(ss[i], steps[i], busy)
  }

  // ----- The reader does not disturb the writer -----

  /** The writing flag as the writer alone would have it. */
  function Alone<T>(w: RingToMemory.State<T>): RingToMemory.State<T> {
    w.(writing := !RingToMemory.Storing(w.copying))
  }

  function WriterSteps<T>(steps: seq<Step<T>>): seq<RingToMemory.Step<T>> {
    if steps == [] then []
    else
      var earlier, a := WriterSteps(steps[..|steps| - 1]), steps[|steps| - 1];
      if a.Writing? then earlier + [a.a] else earlier
  }

  lemma AloneStep<T>(s: State<T>, a: Step<T>, busy: T)
    requires Bounds(s) && Possible(s, a)
    ensures RingToMemory.Bounds(Alone(s.w))
    ensures if a.Writing? then
              && RingToMemory.Possible(Alone(s.w), a.a)
              && Alone(Next(s, a, busy).w) == RingToMemory.Next(Alone(s.w), a.a)
            else Alone(Next(s, a, busy).w) == Alone(s.w)
  {
    hide Ring.Consume, Ring.Produce, Reader.ReaderMove, Reader.StartRead;
  }

  /** Every run holds a run of producer and consumer without a reader, with the same blocks, that ends
      in the same ring, the same memory and the same range. */
  lemma {:induction false} HoldsWriterRun<T>(cells: seq<seq<T>>, memory: seq<T>, size: nat, busy: T, ss: seq<State<T>>,
                                             steps: seq<Step<T>>, k: nat)
    returns (ws: seq<RingToMemory.State<T>>)
    requires Run(cells, memory, size, busy, ss, steps) && k < |ss|
    ensures var wsteps := WriterSteps(steps[..k]);
            RingToMemory.Run(cells, memory, size, ws, wsteps) && |ws| == |wsteps| + 1 && ws[|wsteps|] == Alone(ss[k].w)
  {
    if k == 0 {
      ws := [ss[0].w];
    } else {
      var s, a := ss[k - 1], steps[k - 1];
      assert Possible(s, a) && Bounds(s) && ss[k] == Next(s, a, busy);
      ws := HoldsWriterRun(cells, memory, size, busy, ss, steps, k - 1);
      hide Run, Possible, Bounds, Next, Alone, RingToMemory.Run;
      AloneStep(s, a, busy);
      assert steps[..k][..k - 1] == steps[..k - 1];
      if a.Writing? {
        WriterRunGrows(cells, memory, size, ws, WriterSteps(steps[..k - 1]), a.a);
        ws := ws + [Alone(ss[k].w)];
      }
    }
  }

  lemma WriterRunGrows<T>(cells: seq<seq<T>>, memory: seq<T>, size: nat, ws: seq<RingToMemory.State<T>>,
                          steps: seq<RingToMemory.Step<T>>, a: RingToMemory.Step<T>)
    requires RingToMemory.Run(cells, memory, size, ws, steps)
    requires |ws| == |steps| + 1 && RingToMemory.Bounds(ws[|steps|]) && RingToMemory.Possible(ws[|steps|], a)
    ensures RingToMemory.Run(cells, memory, size, ws + [RingToMemory.Next(ws[|steps|], a)], steps + [a])
  {
    hide RingToMemory.Bounds, RingToMemory.Possible, RingToMemory.Next;
  }

  /** What the writer keeps, seen from the whole. */
  ghost predicate Kept<T>(w: RingToMemory.State<T>, initial: seq<T>, size: nat) {
    && RingToMemory.Inv(w) && w.size == size && |w.memory| == |initial|
    && w.bkStart <= RingToMemory.Stored(w) <= w.bkEnd <= |w.memory| && w.bkEnd <= w.bkStart + size
    && forall p :: RingToMemory.Stored(w) <= p < |w.memory| ==> w.memory[p] == initial[p]
  }

  lemma FlagAside<T>(w: RingToMemory.State<T>)
    ensures RingToMemory.Inv(Alone(w)) == RingToMemory.Inv(w)
    ensures RingToMemory.Stored(Alone(w)) == RingToMemory.Stored(w)
    ensures RingToMemory.Complete(Alone(w)) == RingToMemory.Complete(w)
  {
    hide Ring.Inv, RingToMemory.Concat, RingToMemory.BlocksFit;
    assert RingToMemory.CopyInv(Alone(w), RingToMemory.Block(w)) == RingToMemory.CopyInv(w, RingToMemory.Block(w));
  }

  lemma RunKept<T>(cells: seq<seq<T>>, memory: seq<T>, size: nat, busy: T, ss: seq<State<T>>, steps: seq<Step<T>>,
                   k: nat)
    requires Run(cells, memory, size, busy, ss, steps) && k < |ss|
    ensures Kept(ss[k].w, memory, size)
  {
    hide Run, RingToMemory.Run, RingToMemory.Inv, RingToMemory.Stored, Alone;
    assert k <= |steps| by { RunLength(cells, memory, size, busy, ss, steps); }
    var w, wsteps := ss[k].w, WriterSteps(steps[..k]);
    var ws := HoldsWriterRun(cells, memory, size, busy, ss, steps, k);
    var n := |wsteps|;
    RingToMemory.RunInv(cells, memory, size, ws, wsteps, n);
    RingToMemory.AboveUntouched(cells, memory, size, ws, wsteps, n);
    RingToMemory.RangeHolds(ws[n]);
    FlagAside(w);
    SameBut(w);
  }

  lemma SameBut<T>(w: RingToMemory.State<T>)
    ensures Alone(w) == w.(writing := Alone(w).writing)
  {
  }

  lemma RunLength<T>(cells: seq<seq<T>>, memory: seq<T>, size: nat, busy: T, ss: seq<State<T>>, steps: seq<Step<T>>)
    requires Run(cells, memory, size, busy, ss, steps)
    ensures |ss| == |steps| + 1
  {
  }

  // ----- What is read, whatever the interleaving -----

  /** An element read at position p: what is stored there, or, where nothing was committed when the read
      began, busy or filler. */
  ghost predicate Sound<T>(x: T, p: nat, memory: seq<T>, initial: seq<T>, stored: nat, begun: nat, busy: T)
    requires p < |memory| == |initial|
  {
    || (p < stored && x == memory[p])
    || (p >= begun && (x == busy || x == initial[p]))
  }

  /** Where the reader is, and that everything from there on is sound. */
  ghost predicate ReadInv<T>(s: State<T>, initial: seq<T>, busy: T) {
    var r, mc := s.r, Reader.Position(s.r);
    && r.begun <= s.w.bkStart
    && r.bottom <= mc <= r.bottom + |r.buffer| <= |s.w.memory| == |initial|
    && (r.loop.Yielding? || r.loop.Entering? || r.loop.Ending? || r.loop.Starting? || r.loop.Fetching? ==>
          r.bottom < mc)
    && (r.loop.Fetching? ==> r.begun <= r.loop.start <= s.w.bkStart)
    && forall i :: mc - r.bottom <= i < |r.buffer| ==>
         Sound(r.buffer[i], r.bottom + i, s.w.memory, initial, RingToMemory.Stored(s.w), r.begun, busy)
  }

  lemma WriterKeepsRead<T>(s: State<T>, a: RingToMemory.Step<T>, initial: seq<T>, size: nat, busy: T)
    requires Kept(s.w, initial, size) && ReadInv(s, initial, busy)
    requires RingToMemory.Bounds(s.w) && RingToMemory.Possible(s.w, a)
    ensures ReadInv(s.(w := RingToMemory.Next(s.w, a)), initial, busy)
  {
    hide RingToMemory.Inv, RingToMemory.Next, RingToMemory.Bounds, RingToMemory.Possible, RingToMemory.Stored;
    RingToMemory.StoresUpwards(s.w, a);
  }

  lemma FetchKeepsRead<T>(s: State<T>, initial: seq<T>, size: nat, busy: T)
    requires Kept(s.w, initial, size) && ReadInv(s, initial, busy) && Bounds(s) && s.r.loop.Fetching?
    ensures ReadInv(Next(s, ReaderStep, busy), initial, busy)
  {
    hide RingToMemory.Inv, RingToMemory.Bounds;
    assert RingToMemory.Stored(Next(s, ReaderStep, busy).w) == RingToMemory.Stored(s.w);
    hide RingToMemory.Stored;
  }

  lemma LoadKeepsRead<T>(s: State<T>, initial: seq<T>, size: nat, busy: T)
    requires Kept(s.w, initial, size) && ReadInv(s, initial, busy) && Bounds(s) && !s.r.loop.Fetching?
    ensures ReadInv(Next(s, ReaderStep, busy), initial, busy)
  {
    hide RingToMemory.Inv, RingToMemory.Bounds, Sound;
    assert RingToMemory.Stored(Next(s, ReaderStep, busy).w) == RingToMemory.Stored(s.w);
    hide RingToMemory.Stored;
  }

  lemma AskKeepsRead<T>(s: State<T>, offset: int, buffer: seq<T>, initial: seq<T>, size: nat, busy: T)
    requires Kept(s.w, initial, size) && ReadInv(s, initial, busy) && Bounds(s) && s.r.loop.Away?
    ensures ReadInv(Next(s, Read(offset, buffer), busy), initial, busy)
  {
    hide RingToMemory.Inv, RingToMemory.Bounds, RingToMemory.Stored;
  }

  lemma {:induction false} RunReads<T>(cells: seq<seq<T>>, memory: seq<T>, size: nat, busy: T, ss: seq<State<T>>,
                                       steps: seq<Step<T>>, k: nat)
    requires Run(cells, memory, size, busy, ss, steps) && k < |ss|
    ensures ReadInv(ss[k], memory, busy)
  {
    hide Kept, ReadInv, Possible, Bounds, Next;
    if k == 0 {
      StartReads(cells, memory, size, busy);
    } else {
      var s, a := ss[k - 1], steps[k - 1];
      RunReads(cells, memory, size, busy, ss, steps, k - 1);
      RunKept(cells, memory, size, busy, ss, steps, k - 1);
      assert Possible(s, a) && Bounds(s) && ss[k] == Next(s, a, busy);
      StepReads(s, a, memory, size, busy);
    }
  }

  lemma StartReads<T>(cells: seq<seq<T>>, memory: seq<T>, size: nat, busy: T)
    ensures ReadInv(Start(cells, memory, size), memory, busy)
  {
  }

  lemma StepReads<T>(s: State<T>, a: Step<T>, initial: seq<T>, size: nat, busy: T)
    requires Kept(s.w, initial, size) && ReadInv(s, initial, busy) && Possible(s, a) && Bounds(s)
    ensures ReadInv(Next(s, a, busy), initial, busy)
  {
    hide Kept, ReadInv, RingToMemory.Next, RingToMemory.Bounds, RingToMemory.Possible, Reader.Bounds;
    hide Reader.StartRead, Reader.ReaderMove;
    match a
    case Writing(b) => WriterKeepsRead(s, b, initial, size, busy);
    case Read(offset, buffer) => AskKeepsRead(s, offset, buffer, initial, size, busy);
    case ReaderStep =>
      if s.r.loop.Fetching? {
        FetchKeepsRead(s, initial, size, busy);
      } else {
        LoadKeepsRead(s, initial, size, busy);
      }
  }

  /** Step i asks for the read that is under way or finished in state k. */
  ghost predicate AskedAt<T>(steps: seq<Step<T>>, i: nat, k: nat) {
    i < k <= |steps| && steps[i].Read? && forall j :: i < j < k ==> !steps[j].Read?
  }

  lemma AskedIs<T>(steps: seq<Step<T>>, i: nat, k: nat)
    requires AskedAt(steps, i, k)
    ensures i < k <= |steps| && steps[i].Read?
  {
  }

  lemma {:induction false} ReadsWhatWasAsked<T>(cells: seq<seq<T>>, memory: seq<T>, size: nat, busy: T,
                                                ss: seq<State<T>>, steps: seq<Step<T>>, i: nat, k: nat)
    requires Run(cells, memory, size, busy, ss, steps) && k < |ss| && AskedAt(steps, i, k)
    ensures var r, o, n := ss[k].r, steps[i].offset, |steps[i].buffer|;
            && (r.loop.NegativeOffset? <==> o < 0)
            && (r.loop.OutOfBounds? <==> o >= 0 && |memory| < o + n)
            && (0 <= o && o + n <= |memory| ==>
                  r.bottom == o && |r.buffer| == n && r.begun == ss[i].w.bkStart)
    decreases k
  {
    hide Kept, ReadInv, Possible, Bounds, Next;
    var s, a := ss[k - 1], steps[k - 1];
    RunKept(cells, memory, size, busy, ss, steps, k - 1);
    assert |s.w.memory| == |memory| && s.w.bkStart <= |s.w.memory| by { KeptSize(s.w, memory, size); }
    assert Possible(s, a) && Bounds(s) && ss[k] == Next(s, a, busy);
    if i < k - 1 {
      ReadsWhatWasAsked(cells, memory, size, busy, ss, steps, i, k - 1);
      assert !a.Read?;
    }
    AskedStep(s, a, busy);
  }

  lemma KeptSize<T>(w: RingToMemory.State<T>, initial: seq<T>, size: nat)
    requires Kept(w, initial, size)
    ensures |w.memory| == |initial| && w.bkStart <= |w.memory|
  {
  }

  lemma AskedStep<T>(s: State<T>, a: Step<T>, busy: T)
    requires Bounds(s) && Possible(s, a) && s.w.bkStart <= |s.w.memory|
    ensures var r, r' := s.r, Next(s, a, busy).r;
            if a.Read? then
              && (r'.loop.NegativeOffset? <==> a.offset < 0)
              && (r'.loop.OutOfBounds? <==> a.offset >= 0 && |s.w.memory| < a.offset + |a.buffer|)
              && (0 <= a.offset && a.offset + |a.buffer| <= |s.w.memory| ==>
                    r'.bottom == a.offset && r'.buffer == a.buffer && r'.begun == s.w.bkStart)
            else
              && !r.loop.NegativeOffset? && !r.loop.OutOfBounds?
              && !r'.loop.NegativeOffset? && !r'.loop.OutOfBounds?
              && r'.bottom == r.bottom && |r'.buffer| == |r.buffer| && r'.begun == r.begun
  {
    hide RingToMemory.Next, RingToMemory.Bounds, RingToMemory.Possible;
  }

  /** Sound reads: while blocks are being copied under it, a finished read returns at every position what
      was given to the producer for that position, or busy, or what the memory held before any write;
      and exactly what was given wherever it had been committed when the read was asked for. */
  lemma SoundRead<T>(cells: seq<seq<T>>, memory: seq<T>, size: nat, busy: T, ss: seq<State<T>>, steps: seq<Step<T>>,
                     i: nat, k: nat)
    requires Run(cells, memory, size, busy, ss, steps) && k < |ss| && AskedAt(steps, i, k)
    requires ss[k].r.loop.Away? || (ss[k].r.loop.Testing? && ss[k].r.loop.mc == steps[i].offset)
    ensures var r, o, n := ss[k].r, steps[i].offset, |steps[i].buffer|;
            var given := RingToMemory.Concat(RingToMemory.Blocks(WriterSteps(steps[..k])));
            && 0 <= o && o + n <= |memory| && |r.buffer| == n
            && (forall j :: 0 <= j < n ==>
                  || (o + j < |given| && r.buffer[j] == given[o + j])
                  || (ss[i].w.bkStart <= o + j && (r.buffer[j] == busy || r.buffer[j] == memory[o + j])))
  {
    hide *;
    assert k <= |steps| by { RunLength(cells, memory, size, busy, ss, steps); }
    AskedIs(steps, i, k);
    var s, w, wsteps := ss[k], ss[k].w, WriterSteps(steps[..k]);
    ReadsWhatWasAsked(cells, memory, size, busy, ss, steps, i, k);
    RunReads(cells, memory, size, busy, ss, steps, k);
    var ws := HoldsWriterRun(cells, memory, size, busy, ss, steps, k);
    assert wsteps[..|wsteps|] == wsteps;
    RingToMemory.WholeMemory(cells, memory, size, ws, wsteps, |wsteps|);
    FlagAside(w);
    SameBut(w);
    var given, stored := RingToMemory.Concat(RingToMemory.Blocks(wsteps)), RingToMemory.Stored(w);
    var o, n := steps[i].offset, |steps[i].buffer|;
    Finished(s, memory, busy);
    forall j | 0 <= j < n
      ensures || (o + j < |given| && s.r.buffer[j] == given[o + j])
              || (ss[i].w.bkStart <= o + j && (s.r.buffer[j] == busy || s.r.buffer[j] == memory[o + j]))
    {
      SoundIs(s, memory, j, busy);
    }
  }

  lemma Finished<T>(s: State<T>, initial: seq<T>, busy: T)
    requires ReadInv(s, initial, busy)
    ensures Reader.Position(s.r) >= s.r.bottom && s.r.bottom + |s.r.buffer| <= |s.w.memory| == |initial|
    ensures s.r.loop.Away? ==> Reader.Position(s.r) == s.r.bottom
    ensures s.r.loop.Testing? ==> Reader.Position(s.r) == s.r.loop.mc
  {
  }

  lemma SoundIs<T>(s: State<T>, initial: seq<T>, j: nat, busy: T)
    requires ReadInv(s, initial, busy) && Reader.Position(s.r) == s.r.bottom && j < |s.r.buffer|
    ensures var p, x := s.r.bottom + j, s.r.buffer[j];
            && p < |s.w.memory| == |initial|
            && ((p < RingToMemory.Stored(s.w) && x == s.w.memory[p])
                || (s.r.begun <= p && (x == busy || x == initial[p])))
  {
    hide RingToMemory.Stored;
    assert Sound(s.r.buffer[j], s.r.bottom + j, s.w.memory, initial, RingToMemory.Stored(s.w), s.r.begun, busy);
  }

  // ----- When the shape of module Reader holds -----

  /** The end the reader has loaded is still the end when it takes the element. */
  predicate UpToDate<T>(s: State<T>) {
    s.r.loop.Fetching? ==> s.r.loop.end == s.w.bkEnd
  }

  ghost predicate ShapeInv<T>(s: State<T>, initial: seq<T>, size: nat, busy: T) {
    var r, mc := s.r, Reader.Position(s.r);
    && Reader.Shaped(r.buffer, r.bottom, mc, s.w.memory, initial, s.w.bkStart, r.dataEnd, r.fillerStart, r.begun,
                     size, busy)
    && Reader.Ordered(mc, r.dataEnd, r.fillerStart, s.w.bkStart, s.w.bkEnd, size)
    && (r.loop.Fetching? ==> Reader.Ordered(mc, r.dataEnd, r.fillerStart, r.loop.start, s.w.bkEnd, size))
  }

  lemma WriterKeepsShape<T>(s: State<T>, a: RingToMemory.Step<T>, initial: seq<T>, size: nat, busy: T)
    requires Kept(s.w, initial, size) && ShapeInv(s, initial, size, busy)
    requires RingToMemory.Bounds(s.w) && RingToMemory.Possible(s.w, a)
    ensures ShapeInv(s.(w := RingToMemory.Next(s.w, a)), initial, size, busy)
  {
    hide RingToMemory.Inv, RingToMemory.Next, RingToMemory.Bounds, RingToMemory.Possible, RingToMemory.Stored;
    hide Reader.Shaped;
    RingToMemory.StoresUpwards(s.w, a);
    var r, w' := s.r, RingToMemory.Next(s.w, a);
    Reader.StoreKeepsShape(r.buffer, r.bottom, Reader.Position(r), s.w.memory, initial, s.w.bkStart, r.dataEnd,
                           r.fillerStart, r.begun, size, busy, w'.memory, w'.bkStart);
  }

  lemma AskKeepsShape<T>(s: State<T>, offset: nat, buffer: seq<T>, initial: seq<T>, size: nat, busy: T)
    requires Kept(s.w, initial, size) && Bounds(s) && offset + |buffer| <= |initial|
    ensures ShapeInv(Next(s, Read(offset, buffer), busy), initial, size, busy)
  {
    hide RingToMemory.Inv, RingToMemory.Bounds, RingToMemory.Stored, Reader.Shaped;
    Reader.NothingRead(buffer, offset, s.w.memory, initial, s.w.bkStart, s.w.bkStart, size, busy);
  }

  lemma LoadKeepsShape<T>(s: State<T>, initial: seq<T>, size: nat, busy: T)
    requires Kept(s.w, initial, size) && ShapeInv(s, initial, size, busy) && Bounds(s) && !s.r.loop.Fetching?
    ensures ShapeInv(Next(s, ReaderStep, busy), initial, size, busy)
  {
    hide RingToMemory.Inv, RingToMemory.Bounds, RingToMemory.Stored, Reader.Shaped;
  }

  /** An element is data, busy or filler, and fits to those above it. */
  lemma FetchKeepsShape<T>(s: State<T>, initial: seq<T>, size: nat, busy: T)
    requires Kept(s.w, initial, size) && ReadInv(s, initial, busy) && ShapeInv(s, initial, size, busy)
    requires Bounds(s) && s.r.loop.Fetching? && UpToDate(s)
    ensures ShapeInv(Next(s, ReaderStep, busy), initial, size, busy)
  {
    hide RingToMemory.Inv, RingToMemory.Bounds, RingToMemory.Stored;
    var r, p := s.r, s.r.loop.mc - 1;
    var k, r' := p - r.bottom, Next(s, ReaderStep, busy).r;
    forall i | k <= i < |r.buffer|
      ensures Reader.Element(r'.buffer, i, r.bottom, s.w.memory, initial, s.w.bkStart, r'.dataEnd, r'.fillerStart, busy)
    {
      if i > k {
        assert Reader.Element(r.buffer, i, r.bottom, s.w.memory, initial, s.w.bkStart, r.dataEnd, r.fillerStart, busy);
      }
    }
    hide Reader.Element;
  }

  /** In no step of the read asked for at step i has the end moved between its load and the access. */
  ghost predicate NeverStale<T>(ss: seq<State<T>>, steps: seq<Step<T>>, i: nat, k: nat)
    requires k < |ss| && k <= |steps|
  {
    forall j :: i < j < k && steps[j].ReaderStep? ==> UpToDate(ss[j])
  }

  lemma {:induction false} RunShape<T>(cells: seq<seq<T>>, memory: seq<T>, size: nat, busy: T, ss: seq<State<T>>,
                                       steps: seq<Step<T>>, i: nat, k: nat)
    requires Run(cells, memory, size, busy, ss, steps) && k < |ss| && AskedAt(steps, i, k)
    requires NeverStale(ss, steps, i, k)
    requires 0 <= steps[i].offset && steps[i].offset + |steps[i].buffer| <= |memory|
    ensures ShapeInv(ss[k], memory, size, busy)
    decreases k
  {
    hide Kept, ReadInv, ShapeInv, Possible, Bounds, Next, UpToDate;
    var s, a := ss[k - 1], steps[k - 1];
    RunKept(cells, memory, size, busy, ss, steps, k - 1);
    RunReads(cells, memory, size, busy, ss, steps, k - 1);
    assert Possible(s, a) && Bounds(s) && ss[k] == Next(s, a, busy);
    if i == k - 1 {
      AskKeepsShape(s, a.offset, a.buffer, memory, size, busy);
    } else {
      RunShape(cells, memory, size, busy, ss, steps, i, k - 1);
      assert !a.Read?;
      StepShape(s, a, memory, size, busy);
    }
  }

  lemma StepShape<T>(s: State<T>, a: Step<T>, initial: seq<T>, size: nat, busy: T)
    requires Kept(s.w, initial, size) && ReadInv(s, initial, busy) && ShapeInv(s, initial, size, busy)
    requires Possible(s, a) && Bounds(s) && !a.Read? && (a.ReaderStep? ==> UpToDate(s))
    ensures ShapeInv(Next(s, a, busy), initial, size, busy)
  {
    hide Kept, ReadInv, ShapeInv, UpToDate, RingToMemory.Next, RingToMemory.Bounds, RingToMemory.Possible;
    hide Reader.Bounds, Reader.ReaderMove;
    match a
    case Writing(b) => WriterKeepsShape(s, b, initial, size, busy);
    case ReaderStep =>
      if s.r.loop.Fetching? {
        FetchKeepsShape(s, initial, size, busy);
      } else {
        LoadKeepsShape(s, initial, size, busy);
      }
  }

  /** Shape, for blocks: a finished read in which no end was stale has filled its buffer, from low to high
      position, with what was given to the producer, then at most one busy element more than a block has
      elements, then what the memory held before any write; and it returns exactly all that was
      committed when it was asked for. */
  lemma ShapedRead<T>(cells: seq<seq<T>>, memory: seq<T>, size: nat, busy: T, ss: seq<State<T>>, steps: seq<Step<T>>,
                      i: nat, k: nat)
    returns (a: nat, b: nat)
    requires Run(cells, memory, size, busy, ss, steps) && k < |ss| && AskedAt(steps, i, k)
    requires ss[k].r.loop.Away? || (ss[k].r.loop.Testing? && ss[k].r.loop.mc == steps[i].offset)
    requires NeverStale(ss, steps, i, k)
    ensures var r, o, n := ss[k].r, steps[i].offset, |steps[i].buffer|;
            var given := RingToMemory.Concat(RingToMemory.Blocks(WriterSteps(steps[..k])));
            && 0 <= o && o + n <= |memory| && |r.buffer| == n && a <= b <= n && b <= a + size + 1
            && (a > 0 ==> o + a <= |given| && r.buffer[..a] == given[o..o + a])
            && (forall e :: a <= e < b ==> r.buffer[e] == busy)
            && r.buffer[b..] == memory[o + b..o + n]
            && (ss[i].w.bkStart <= o + a || a == n)
  {
    hide *;
    assert k <= |steps| by { RunLength(cells, memory, size, busy, ss, steps); }
    AskedIs(steps, i, k);
    var s, w, wsteps := ss[k], ss[k].w, WriterSteps(steps[..k]);
    ReadsWhatWasAsked(cells, memory, size, busy, ss, steps, i, k);
    RunReads(cells, memory, size, busy, ss, steps, k);
    Finished(s, memory, busy);
    RunShape(cells, memory, size, busy, ss, steps, i, k);
    var ws := HoldsWriterRun(cells, memory, size, busy, ss, steps, k);
    assert wsteps[..|wsteps|] == wsteps;
    RingToMemory.WholeMemory(cells, memory, size, ws, wsteps, |wsteps|);
    FlagAside(w);
    SameBut(w);
    a, b := Shape(s, memory, size, busy);
    var given := RingToMemory.Concat(RingToMemory.Blocks(wsteps));
    var o, stored := steps[i].offset, RingToMemory.Stored(w);
    if a > 0 {
      assert w.memory[o..o + a] == w.memory[..stored][o..o + a] == given[..stored][o..o + a] == given[o..o + a];
    }
  }

  lemma Shape<T>(s: State<T>, initial: seq<T>, size: nat, busy: T) returns (a: nat, b: nat)
    requires ShapeInv(s, initial, size, busy) && Reader.Position(s.r) == s.r.bottom
    ensures var r, n, o := s.r, |s.r.buffer|, s.r.bottom;
            && o + n <= |initial| == |s.w.memory| && a <= b <= n && b <= a + size + 1
            && (a > 0 ==> o + a <= s.w.bkStart && r.buffer[..a] == s.w.memory[o..o + a])
            && (forall e :: a <= e < b ==> r.buffer[e] == busy)
            && r.buffer[b..] == initial[o + b..o + n]
            && (r.begun <= o + a || a == n)
  {
    var r := s.r;
    a, b := r.dataEnd - r.bottom, r.fillerStart - r.bottom;
    forall e | 0 <= e < |r.buffer|
      ensures e < a ==> r.bottom + e < s.w.bkStart && r.buffer[e] == s.w.memory[r.bottom + e]
      ensures a <= e < b ==> r.buffer[e] == busy
      ensures b <= e ==> r.buffer[e] == initial[r.bottom + e]
    {
      assert Reader.Element(r.buffer, e, r.bottom, s.w.memory, initial, s.w.bkStart, r.dataEnd, r.fillerStart, busy);
    }
    hide Reader.Element;
    if a > 0 {
      assert r.buffer[a - 1] == s.w.memory[r.bottom + a - 1];
    }
  }

  /** The four things an element can be, and exactly when: a stale end lets through what is being copied
      and has not been committed. */
  lemma LeaksExactly<T>(s: State<T>, initial: seq<T>, size: nat, busy: T)
    requires Kept(s.w, initial, size) && ReadInv(s, initial, busy) && Bounds(s) && s.r.loop.Fetching?
    ensures var p, x := s.r.loop.mc - 1, Next(s, ReaderStep, busy).r.buffer[s.r.loop.mc - 1 - s.r.bottom];
            var start, end := s.r.loop.start, s.r.loop.end;
            if start <= p <= end then x == busy
            else if p < RingToMemory.Stored(s.w) then x == s.w.memory[p] && (p < s.w.bkStart || end < s.w.bkEnd)
            else x == initial[p]
  {
    hide RingToMemory.Inv, RingToMemory.Bounds, Sound;
    assert RingToMemory.Stored(s.w) <= s.w.bkEnd;
    hide RingToMemory.Stored;
  }

  // ----- When the reader waits for nobody -----

  /** The consumer's next step clears the writing flag. */
  predicate Clears<T>(s: State<T>, a: Step<T>) {
    && a.Writing? && a.a.ConsumerStep? && s.w.ring.consumer.Transferring?
    && (s.w.copying.Fits? || s.w.copying.Filled?)
  }

  /** It sets the flag between the two halves of the reader's `wait`. */
  predicate Overtakes<T>(s: State<T>, a: Step<T>) {
    && a.Writing? && a.a.ConsumerStep? && s.w.ring.consumer.Transferring?
    && (s.w.copying.Ranged? || s.w.copying.Ended?) && s.r.loop.Yielding?
  }

  /** The reader waits although no store to the range is under way. */
  predicate Stalled<T>(s: State<T>) {
    && !RingToMemory.Storing(s.w.copying)
    && (s.r.loop.Yielding? || (s.r.loop.Testing? && !s.w.writing))
    && s.r.loop.mc != s.r.bottom
  }

  /** The reader's flag is clear exactly while it takes an element. The writer's is clear around a store to
      the range, but for the moment between the halves of `wait`, and else set, unless the reader has
      cleared it and is about to test it again. */
  predicate FlagInv<T>(s: State<T>) {
    && (!s.r.reading <==> s.r.loop.Ending? || s.r.loop.Starting? || s.r.loop.Fetching? || s.r.loop.Leaving?)
    && (s.r.loop.Yielding? ==> s.r.loop.mc != s.r.bottom)
    && (RingToMemory.Storing(s.w.copying) && !s.r.loop.Yielding? ==> !s.w.writing)
    && (!RingToMemory.Storing(s.w.copying) && !s.w.writing ==> s.r.loop.Testing? && s.r.loop.mc != s.r.bottom)
  }

  lemma FlagKeeps<T>(s: State<T>, a: Step<T>, busy: T)
    requires Possible(s, a) && Bounds(s) && FlagInv(s)
    ensures FlagInv(Next(s, a, busy))
  {
    hide Ring.Consume, Ring.Produce;
  }

  lemma StallsExactly<T>(s: State<T>, a: Step<T>, busy: T)
    requires Possible(s, a) && Bounds(s) && FlagInv(s) && !Stalled(s)
    ensures Stalled(Next(s, a, busy)) <==> Overtakes(s, a)
  {
    hide Ring.Consume, Ring.Produce;
  }

  lemma StalledUntilCleared<T>(s: State<T>, a: Step<T>, busy: T)
    requires Possible(s, a) && Bounds(s) && FlagInv(s) && Stalled(s)
    ensures Stalled(Next(s, a, busy)) <==> !Clears(s, a)
    ensures Next(s, a, busy).r.buffer == s.r.buffer
  {
    hide Ring.Consume, Ring.Produce;
  }

  lemma {:induction false} RunFlags<T>(cells: seq<seq<T>>, memory: seq<T>, size: nat, busy: T, ss: seq<State<T>>,
                                       steps: seq<Step<T>>, k: nat)
    requires Run(cells, memory, size, busy, ss, steps) && k < |ss|
    ensures FlagInv(ss[k])
  {
    hide Next, FlagInv, Possible, Bounds;
    if k == 0 {
      StartFlags(cells, memory, size);
    } else {
      RunFlags(cells, memory, size, busy, ss, steps, k - 1);
      assert Possible(ss[k - 1], steps[k - 1]) && Bounds(ss[k - 1]);
      FlagKeeps(ss[k - 1], steps[k - 1], busy);
    }
  }

  lemma StartFlags<T>(cells: seq<seq<T>>, memory: seq<T>, size: nat)
    ensures FlagInv(Start(cells, memory, size)) && !Stalled(Start(cells, memory, size))
  {
  }

  ghost predicate StalledSince<T>(ss: seq<State<T>>, steps: seq<Step<T>>, i: nat, k: nat)
    requires k < |ss| == |steps| + 1
  {
    i < k && Overtakes(ss[i], steps[i]) && forall j :: i < j < k ==> !Clears(ss[j], steps[j])
  }

  /** Over every run: the reader waits for nobody if and only if the consumer has set the flag between the
      two halves of `wait` and has not cleared it since. */
  lemma {:induction false} StalledExactly<T>(cells: seq<seq<T>>, memory: seq<T>, size: nat, busy: T,
                                             ss: seq<State<T>>, steps: seq<Step<T>>, k: nat)
    requires Run(cells, memory, size, busy, ss, steps) && k < |ss|
    ensures Stalled(ss[k]) <==> exists i :: StalledSince(ss, steps, i, k)
  {
    hide Next, FlagInv, Possible, Bounds, Stalled, Overtakes, Clears;
    if k == 0 {
      StartFlags(cells, memory, size);
    } else {
      var s, a := ss[k - 1], steps[k - 1];
      StalledExactly(cells, memory, size, busy, ss, steps, k - 1);
      RunFlags(cells, memory, size, busy, ss, steps, k - 1);
      assert Possible(s, a) && Bounds(s) && ss[k] == Next(s, a, busy);
      assert forall i: nat :: StalledSince(ss, steps, i, k) ==> i == k - 1 || StalledSince(ss, steps, i, k - 1);
      OneOf(s, a);
      if Stalled(s) {
        StalledUntilCleared(s, a, busy);
        var i :| StalledSince(ss, steps, i, k - 1);
        assert !Clears(s, a) ==> StalledSince(ss, steps, i, k);
      } else {
        StallsExactly(s, a, busy);
        assert Overtakes(s, a) ==> StalledSince(ss, steps, k - 1, k);
      }
    }
  }

  lemma OneOf<T>(s: State<T>, a: Step<T>)
    ensures Overtakes(s, a) ==> !Stalled(s) && !Clears(s, a)
  {
  }

  // ----- A read that loses its shape -----

  const GIVEN := [7, 8]

  predicate Untold(steps: seq<Step<int>>, n: nat) {
    forall j :: n <= j < |steps| ==> !steps[j].Read?
  }

  /** One more step of the run of two cells, two elements and one block. */
  lemma Extend(ss: seq<State<int>>, steps: seq<Step<int>>, a: Step<int>, s': State<int>, n: nat)
    returns (ss': seq<State<int>>, steps': seq<Step<int>>)
    requires Run([[0, 0], [0, 0]], [0, 0], 2, 9, ss, steps) && Untold(steps, n)
    requires var s := ss[|steps|]; Possible(s, a) && Bounds(s) && Next(s, a, 9) == s'
    requires a.Read? ==> |steps| < n
    ensures Run([[0, 0], [0, 0]], [0, 0], 2, 9, ss', steps') && Untold(steps', n)
    ensures steps' == steps + [a] && |ss'| == |ss| + 1 && ss'[|steps'|] == s'
  {
    hide Possible, Bounds, Next, Start;
    ss', steps' := ss + [s'], steps + [a];
  }

  function Published(): Ring.State<seq<int>> {
    Ring.State([[0, 0], GIVEN], 0, 0, false, Ring.Ready, Ring.Waiting, [GIVEN], [], 0)
  }

  function Handed(): Ring.State<seq<int>> {
    Published().(notify := true, consumer := Ring.Transferring(1, 0), snapshot := 1)
  }

  function Copier(copying: RingToMemory.Copying, memory: seq<int>, bkEnd: nat, writing: bool): RingToMemory.State<int> {
    RingToMemory.State(Handed(), memory, 0, bkEnd, writing, copying, 2)
  }

  /** The block is published, and the consumer is about to copy it. */
  lemma BlockArrives() returns (ss: seq<State<int>>, steps: seq<Step<int>>)
    ensures Run([[0, 0], [0, 0]], [0, 0], 2, 9, ss, steps) && Untold(steps, 10) && |steps| == 9
    ensures ss[9] == State(Copier(RingToMemory.Fresh, [0, 0], 0, true), Reader.Begin([0, 0]))
  {
    var s := Start([[0, 0], [0, 0]], [0, 0], 2);
    ss, steps := [s], [];
    assert Run([[0, 0], [0, 0]], [0, 0], 2, 9, ss, steps);
    hide Run, Untold;
    assert Untold(steps, 10) by { NoneYet(); }
    var ring := s.w.ring;
    var r1 := ring.(producer := Ring.Loaded(1, GIVEN));
    var r2 := ring.(producer := Ring.Cleared(1, GIVEN));
    var r3 := ring.(producer := Ring.Copied(1, GIVEN), cells := [[0, 0], GIVEN]);
    var r4 := Published().(notify := true, producer := Ring.Published);
    var r5 := Published();
    var r6 := r5.(notify := true, consumer := Ring.Woken);
    var r7 := r6.(consumer := Ring.Started(0));
    var r8 := r6.(consumer := Ring.Looping(0, 0), snapshot := 1);
    ss, steps := Extend(ss, steps, Writing(RingToMemory.Write(GIVEN)), s.(w := s.w.(ring := r1)), 10);
    ss, steps := Extend(ss, steps, Writing(RingToMemory.ProducerStep), s.(w := s.w.(ring := r2)), 10);
    ss, steps := Extend(ss, steps, Writing(RingToMemory.ProducerStep), s.(w := s.w.(ring := r3)), 10);
    ss, steps := Extend(ss, steps, Writing(RingToMemory.ProducerStep), s.(w := s.w.(ring := r4)), 10);
    ss, steps := Extend(ss, steps, Writing(RingToMemory.ProducerStep), s.(w := s.w.(ring := r5)), 10);
    ss, steps := Extend(ss, steps, Writing(RingToMemory.ConsumerStep), s.(w := s.w.(ring := r6)), 10);
    ss, steps := Extend(ss, steps, Writing(RingToMemory.ConsumerStep), s.(w := s.w.(ring := r7)), 10);
    ss, steps := Extend(ss, steps, Writing(RingToMemory.ConsumerStep), s.(w := s.w.(ring := r8)), 10);
    ss, steps := Extend(ss, steps, Writing(RingToMemory.ConsumerStep), s.(w := s.w.(ring := Handed())), 10);
  }

  lemma NoneYet()
    ensures Untold([], 10)
  {
  }

  /** The reader, asked for both elements, as it sees the memory. */
  function Listener(w: RingToMemory.State<int>, loop: Reader.Loop, buffer: seq<int>, dataEnd: nat,
                    fillerStart: nat): State<int>
  {
    var r := Reader.Begin([0, 0]);
    State(w, r.(memory := w.memory, bkEnd := w.bkEnd, writing := w.writing, loop := loop, buffer := buffer,
                reading := !(loop.Ending? || loop.Starting? || loop.Fetching? || loop.Leaving?),
                dataEnd := dataEnd, fillerStart := fillerStart))
  }

  /** It is asked, and has loaded the end of a range that is still empty. */
  lemma EndIsLoaded() returns (ss: seq<State<int>>, steps: seq<Step<int>>)
    ensures Run([[0, 0], [0, 0]], [0, 0], 2, 9, ss, steps) && Untold(steps, 10) && |steps| == 13
    ensures steps[9] == Read(0, [5, 5])
    ensures ss[13] == Listener(Copier(RingToMemory.Fresh, [0, 0], 0, true), Reader.Starting(2, 0), [5, 5], 2, 2)
  {
    ss, steps := BlockArrives();
    hide Run, Untold;
    var w := Copier(RingToMemory.Fresh, [0, 0], 0, true);
    ss, steps := Extend(ss, steps, Read(0, [5, 5]), Listener(w, Reader.Testing(2), [5, 5], 2, 2), 10);
    ss, steps := Extend(ss, steps, ReaderStep, Listener(w, Reader.Entering(2), [5, 5], 2, 2), 10);
    ss, steps := Extend(ss, steps, ReaderStep, Listener(w, Reader.Ending(2), [5, 5], 2, 2), 10);
    ss, steps := Extend(ss, steps, ReaderStep, Listener(w, Reader.Starting(2, 0), [5, 5], 2, 2), 10);
  }

  /** The whole block is copied, and not yet committed. */
  lemma BlockIsCopied() returns (ss: seq<State<int>>, steps: seq<Step<int>>)
    ensures Run([[0, 0], [0, 0]], [0, 0], 2, 9, ss, steps) && Untold(steps, 10) && |steps| == 20
    ensures steps[9] == Read(0, [5, 5])
    ensures ss[20] == State(Copier(RingToMemory.Filling(2, 2), [7, 8], 2, true),
                            Listener(Copier(RingToMemory.Fresh, [0, 0], 0, true), Reader.Starting(2, 0), [5, 5], 2,
                                     2).r)
  {
    ss, steps := EndIsLoaded();
    hide Run, Untold, Listener;
    var r := Listener(Copier(RingToMemory.Fresh, [0, 0], 0, true), Reader.Starting(2, 0), [5, 5], 2, 2).r;
    ListensAt();
    var c := Writing(RingToMemory.ConsumerStep);
    ss, steps := Extend(ss, steps, c, State(Copier(RingToMemory.Fits(0), [0, 0], 0, true), r), 10);
    ss, steps := Extend(ss, steps, c, State(Copier(RingToMemory.Lowered(0), [0, 0], 0, false), r), 10);
    ss, steps := Extend(ss, steps, c, State(Copier(RingToMemory.Ranged, [0, 0], 2, false), r), 10);
    ss, steps := Extend(ss, steps, c, State(Copier(RingToMemory.Raised, [0, 0], 2, true), r), 10);
    ss, steps := Extend(ss, steps, c, State(Copier(RingToMemory.Filling(0, 0), [0, 0], 2, true), r), 10);
    ss, steps := Extend(ss, steps, c, State(Copier(RingToMemory.Filling(1, 1), [7, 0], 2, true), r), 10);
    ss, steps := Extend(ss, steps, c, State(Copier(RingToMemory.Filling(2, 2), [7, 8], 2, true), r), 10);
  }

  lemma ListensAt()
    ensures var w := Copier(RingToMemory.Fresh, [0, 0], 0, true);
            var s := Listener(w, Reader.Starting(2, 0), [5, 5], 2, 2);
            s == State(w, s.r) && s.r.loop == Reader.Starting(2, 0) && s.r.bottom == 0 && s.r.writer.Resting?
  {
  }

  /** Blocks of two elements: there is a run in which a finished read returns a busy element below one
      that is neither busy nor filler but has not been committed: it has no shape. */
  lemma ShapeIsLost() returns (ss: seq<State<int>>, steps: seq<Step<int>>)
    ensures Run([[0, 0], [0, 0]], [0, 0], 2, 9, ss, steps) && Untold(steps, 10) && |steps| == 29
    ensures steps[9] == Read(0, [5, 5])
    ensures ss[29].r.loop == Reader.Testing(0) && ss[29].r.buffer == [9, 8] && ss[29].w.bkStart == 0
  {
    ss, steps := BlockIsCopied();
    hide Run, Untold;
    var w := Copier(RingToMemory.Filling(2, 2), [7, 8], 2, true);
    ss, steps := Extend(ss, steps, ReaderStep, Listener(w, Reader.Fetching(2, 0, 0), [5, 5], 2, 2), 10);
    ss, steps := Extend(ss, steps, ReaderStep, Listener(w, Reader.Leaving(1), [5, 8], 1, 1), 10);
    ss, steps := Extend(ss, steps, ReaderStep, Listener(w, Reader.Testing(1), [5, 8], 1, 1), 10);
    ss, steps := Extend(ss, steps, ReaderStep, Listener(w, Reader.Entering(1), [5, 8], 1, 1), 10);
    ss, steps := Extend(ss, steps, ReaderStep, Listener(w, Reader.Ending(1), [5, 8], 1, 1), 10);
    ss, steps := Extend(ss, steps, ReaderStep, Listener(w, Reader.Starting(1, 2), [5, 8], 1, 1), 10);
    ss, steps := Extend(ss, steps, ReaderStep, Listener(w, Reader.Fetching(1, 2, 0), [5, 8], 1, 1), 10);
    ss, steps := Extend(ss, steps, ReaderStep, Listener(w, Reader.Leaving(0), [9, 8], 0, 1), 10);
    ss, steps := Extend(ss, steps, ReaderStep, Listener(w, Reader.Testing(0), [9, 8], 0, 1), 10);
  }
}
