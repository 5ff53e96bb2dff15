/** The append-only memory and its backwards reader. `NonBlockingWriteTask::write` and
    `ReadTask::read` run in two threads that do not wait for each other's data; every load, store,
    test_and_set, clear and element access is one step. */
module Reader {
  import opened Results

  // ----- The two threads -----

  /** `write`, by what it does next. */
  datatype Writer<T> =
    | Resting
    | Positioned(pos: nat, item: T)
    | Flagged(pos: nat, item: T)
    | Extending(pos: nat, item: T, end: nat)
    | Opened(pos: nat, item: T)
    | Copied(pos: nat, item: T)
    | Closing
    | Full

  /** `read`, by what it does next. Positions from `mc` on have been read. */
  datatype Loop =
    | Away
    | Testing(mc: nat)
    | Yielding(mc: nat)
    | Entering(mc: nat)
    | Ending(mc: nat)
    | Starting(mc: nat, end: nat)
    | Fetching(mc: nat, end: nat, start: nat)
    | Leaving(mc: nat)
    | NegativeOffset
    | OutOfBounds

  /** The reader fills `buffer` from the memory at `bottom` on. `initial`, `log`, `begun`, `dataEnd`
      and `fillerStart` record, for the proofs only, the memory before any write, the elements
      committed so far, how many there were when the read began, and up to which position what has
      been read is data and from which it is filler. The flags are true when set. */
  datatype State<T> = State(
    initial: seq<T>,
    memory: seq<T>,
    bkStart: nat,
    bkEnd: nat,
    writing: bool,
    reading: bool,
    writer: Writer<T>,
    loop: Loop,
    bottom: nat,
    buffer: seq<T>,
    log: seq<T>,
    begun: nat,
    dataEnd: nat,
    fillerStart: nat)

  datatype Step<T> = Write(item: T) | WriterStep | Read(offset: int, buffer: seq<T>) | ReaderStep

  function Begin<T>(memory: seq<T>): State<T> {
    State(memory, memory, 0, 0, true, true, Resting, Away, 0, [], [], 0, 0, 0)
  }

  /** What the accesses of the two threads need to stay inside the memory. */
  predicate Bounds<T>(s: State<T>) {
    && (s.writer.Opened? ==> s.writer.pos < |s.memory|)
    && (s.loop.Fetching? ==> s.bottom < s.loop.mc <= |s.memory| && s.loop.mc <= s.bottom + |s.buffer|)
  }

  function WriterMove<T>(s: State<T>): State<T>
    requires Bounds(s)
  {
    match s.writer
    case Positioned(pos, item) =>
      if pos == |s.memory| then s.(writer := Full) else s.(writing := false, writer := Flagged(pos, item))
    case Flagged(pos, item) => s.(writer := Extending(pos, item, s.bkEnd))
    case Extending(pos, item, end) => s.(bkEnd := end + 1, writer := Opened(pos, item))
    case Opened(pos, item) => s.(memory := s.memory[pos := item], writer := Copied(pos, item))
    case Copied(pos, item) => s.(bkStart := pos + 1, log := s.log + [item], writer := Closing)
    case Closing => s.(writing := true, writer := Resting)
    case _ => s
  }

  /** How many elements the writer has stored. */
  function Stored<T>(s: State<T>): nat {
    |s.log| + (if s.writer.Copied? then 1 else 0)
  }

  /** The branch of `read`. */
  function Fetch<T>(s: State<T>, mc: nat, end: nat, start: nat, busy: T): State<T>
    requires s.bottom < mc <= |s.memory| && mc <= s.bottom + |s.buffer|
  {
    var p := mc - 1;
    var free := p < start || p > end;
    s.(buffer := s.buffer[p - s.bottom := if free then s.memory[p] else busy],
       loop := Leaving(p),
       dataEnd := if free && p < Stored(s) then s.dataEnd else p,
       fillerStart := if free && p >= Stored(s) then p else s.fillerStart)
  }

  function ReaderMove<T>(s: State<T>, busy: T): State<T>
    requires Bounds(s)
  {
    match s.loop
    case Testing(mc) =>
      if mc == s.bottom then s.(loop := Away)
      else s.(writing := true, loop := if s.writing then Entering(mc) else Yielding(mc))
    case Yielding(mc) => s.(writing := false, loop := Testing(mc))
    case Entering(mc) => s.(reading := false, loop := Ending(mc))
    case Ending(mc) => s.(loop := Starting(mc, s.bkEnd))
    case Starting(mc, end) => s.(loop := Fetching(mc, end, s.bkStart))
    case Fetching(mc, end, start) => Fetch(s, mc, end, start, busy)
    case Leaving(mc) => s.(reading := true, loop := Testing(mc))
    case _ => s
  }

  /** What is read at a position beside a writer that keeps to its range. */
  function Seen<T>(memory: seq<T>, start: nat, end: nat, p: nat, busy: T): T
    requires p < |memory|
  {
    if start <= p <= end then busy else memory[p]
  }

  function StartRead<T>(s: State<T>, offset: int, buffer: seq<T>): State<T> {
    if offset < 0 then s.(loop := NegativeOffset)
    else if |s.memory| < offset + |buffer| then s.(loop := OutOfBounds)
    else
      var top := offset + |buffer|;
      s.(loop := Testing(top), bottom := offset, buffer := buffer, begun := |s.log|, dataEnd := top, fillerStart := top)
  }

  /** Errors abort the process; a new element or read waits for the thread to be ready. */
  predicate Possible<T>(s: State<T>, a: Step<T>) {
    && !s.writer.Full? && !s.loop.NegativeOffset? && !s.loop.OutOfBounds?
    && (a.Write? ==> s.writer.Resting?)
    && (a.Read? ==> s.loop.Away?)
  }

  function Next<T>(s: State<T>, a: Step<T>, busy: T): State<T>
    requires Bounds(s)
  {
    match a
    case Write(item) => s.(writer := Positioned(s.bkStart, item))
    case WriterStep => WriterMove(s)
    case Read(offset, buffer) => StartRead(s, offset, buffer)
    case ReaderStep => ReaderMove(s, busy)
  }

  // ----- The invariant -----

  /** The memory: the log, perhaps one more element, and above that what was there before. */
  ghost predicate Contents<T>(memory: seq<T>, initial: seq<T>, log: seq<T>, stored: nat) {
    && |log| <= stored <= |memory| == |initial|
    && memory[..|log|] == log
    && memory[stored..] == initial[stored..]
  }

  ghost predicate WriterAt<T>(w: Writer<T>, memory: seq<T>, bkStart: nat, bkEnd: nat) {
    && bkEnd == bkStart + (if w.Opened? || w.Copied? then 1 else 0)
    && match w
       case Positioned(pos, _) => pos == bkStart
       case Flagged(pos, _) => pos == bkStart < |memory|
       case Extending(pos, _, end) => pos == bkStart < |memory| && end == bkEnd
       case Opened(pos, _) => pos == bkStart < |memory|
       case Copied(pos, item) => pos == bkStart < |memory| && memory[pos] == item
       case Full => bkStart == |memory|
       case _ => true
  }

  ghost predicate WriterInv<T>(s: State<T>) {
    && |s.log| == s.bkStart
    && Contents(s.memory, s.initial, s.log, Stored(s))
    && WriterAt(s.writer, s.memory, s.bkStart, s.bkEnd)
  }

  /** Where the reader is; while it is away the last read stands. */
  function Position<T>(s: State<T>): nat {
    match s.loop
    case Away | NegativeOffset | OutOfBounds => s.bottom
    case _ => s.loop.mc
  }

  /** What a range [start, end] that the writer has or had tells about the elements still to come:
      below data only data follows, and below busy elements more of them, up to one beside the `width`
      written at a time, or data. */
  predicate Ordered(mc: nat, dataEnd: nat, fillerStart: nat, start: nat, end: nat, width: nat) {
    && (mc < dataEnd ==> mc <= start)
    && (dataEnd < fillerStart ==> fillerStart <= start + width + 1 && fillerStart <= end + 1)
  }

  /** Element i of the buffer, read from position bottom + i: data, busy or filler. */
  ghost predicate Element<T>(buffer: seq<T>, i: nat, bottom: nat, memory: seq<T>, initial: seq<T>, stored: nat,
                             dataEnd: nat, fillerStart: nat, busy: T)
    requires i < |buffer| && bottom + |buffer| <= |memory| == |initial|
  {
    var p := bottom + i;
    if p < dataEnd then p < stored && buffer[i] == memory[p]
    else if p < fillerStart then buffer[i] == busy
    else buffer[i] == initial[p]
  }

  /** The shape of what has been read down to mc: stored data, some busy elements, untouched filler;
      and all that was committed when the read began. */
  ghost predicate Shaped<T>(buffer: seq<T>, bottom: nat, mc: nat, memory: seq<T>, initial: seq<T>, stored: nat,
                            dataEnd: nat, fillerStart: nat, begun: nat, width: nat, busy: T)
  {
    var top := bottom + |buffer|;
    && bottom <= mc <= dataEnd <= fillerStart <= top <= |memory| == |initial|
    && fillerStart <= dataEnd + width + 1
    && (begun <= dataEnd || dataEnd == top)
    && (forall i :: mc - bottom <= i < |buffer| ==>
          Element(buffer, i, bottom, memory, initial, stored, dataEnd, fillerStart, busy))
  }

  ghost predicate ReaderInv<T>(s: State<T>, busy: T) {
    var mc := Position(s);
    && s.begun <= s.bkStart
    && Shaped(s.buffer, s.bottom, mc, s.memory, s.initial, Stored(s), s.dataEnd, s.fillerStart, s.begun, 1, busy)
    && Ordered(mc, s.dataEnd, s.fillerStart, s.bkStart, s.bkEnd, 1)
    && match s.loop
       case Starting(_, end) =>
         && s.bottom < mc
         && end <= s.bkEnd && end <= s.bkStart + 1
         && Ordered(mc, s.dataEnd, s.fillerStart, s.bkStart, end, 1)
       case Fetching(_, end, start) =>
         && s.bottom < mc
         && s.begun <= start <= s.bkStart && end <= s.bkEnd && end <= start + 1
         && Ordered(mc, s.dataEnd, s.fillerStart, start, end, 1)
       case Yielding(_) => s.bottom < mc
       case Entering(_) => s.bottom < mc
       case Ending(_) => s.bottom < mc
       case _ => true
  }

  ghost predicate Inv<T>(s: State<T>, busy: T) {
    WriterInv(s) && ReaderInv(s, busy)
  }

  lemma BeginInv<T>(memory: seq<T>, busy: T)
    ensures Inv(Begin(memory), busy)
  {
  }

  lemma InBounds<T>(s: State<T>, busy: T)
    requires Inv(s, busy)
    ensures Bounds(s)
  {
  }

  /** Storing more elements changes nothing that has been read. */
  lemma StoreKeepsShape<T>(buffer: seq<T>, bottom: nat, mc: nat, memory: seq<T>, initial: seq<T>, stored: nat,
                           dataEnd: nat, fillerStart: nat, begun: nat, width: nat, busy: T, memory': seq<T>,
                           stored': nat)
    requires Shaped(buffer, bottom, mc, memory, initial, stored, dataEnd, fillerStart, begun, width, busy)
    requires stored <= stored' && |memory'| == |memory|
    requires forall p :: 0 <= p < stored && p < |memory| ==> memory'[p] == memory[p]
    ensures Shaped(buffer, bottom, mc, memory', initial, stored', dataEnd, fillerStart, begun, width, busy)
  {
    forall i | mc - bottom <= i < |buffer|
      ensures Element(buffer, i, bottom, memory', initial, stored', dataEnd, fillerStart, busy)
    {
      assert Element(buffer, i, bottom, memory, initial, stored, dataEnd, fillerStart, busy);
    }
  }

  lemma StoreKeepsContents<T>(memory: seq<T>, initial: seq<T>, log: seq<T>, item: T)
    requires Contents(memory, initial, log, |log|) && |log| < |memory|
    ensures Contents(memory[|log| := item], initial, log, |log| + 1)
  {
    var n, memory' := |log|, memory[|log| := item];
    assert memory'[..n] == memory[..n];
    assert memory'[n + 1..] == memory[n..][1..] == initial[n..][1..] == initial[n + 1..];
  }

  lemma CommitKeepsContents<T>(memory: seq<T>, initial: seq<T>, log: seq<T>, item: T)
    requires Contents(memory, initial, log, |log| + 1) && memory[|log|] == item
    ensures Contents(memory, initial, log + [item], |log| + 1)
  {
    assert memory[..|log| + 1] == memory[..|log|] + [item];
  }

  lemma WriterKeepsItself<T>(s: State<T>)
    requires WriterInv(s) && Bounds(s)
    ensures WriterInv(WriterMove(s))
  {
    assert |s.log| <= |s.memory|;
    hide Contents;
    match s.writer
    case Opened(pos, item) => StoreKeepsContents(s.memory, s.initial, s.log, item);
    case Copied(pos, item) => CommitKeepsContents(s.memory, s.initial, s.log, item);
    case _ =>
  }

  lemma WriterKeeps<T>(s: State<T>, busy: T)
    requires Inv(s, busy)
    ensures Bounds(s) && Inv(WriterMove(s), busy)
  {
    hide Shaped, WriterInv;
    assert Bounds(s) by { InBounds(s, busy); }
    WriterKeepsItself(s);
    WriterMoves(s);
    if s.writer.Opened? {
      StoreKeepsShape(s.buffer, s.bottom, Position(s), s.memory, s.initial, Stored(s), s.dataEnd, s.fillerStart,
                      s.begun, 1, busy, WriterMove(s).memory, Stored(s) + 1);
    }
  }

  /** The writer's range only moves up, and an element is stored only at its lower end. */
  lemma WriterMoves<T>(s: State<T>)
    requires WriterInv(s) && Bounds(s)
    ensures var s' := WriterMove(s);
            && s.bkStart <= s'.bkStart && s.bkEnd <= s'.bkEnd
            && Stored(s') == Stored(s) + (if s.writer.Opened? then 1 else 0)
            && s'.memory == (if s.writer.Opened? then s.memory[Stored(s) := s.writer.item] else s.memory)
            && (s.writer.Opened? ==> Stored(s) < |s.memory|)
            && s' == s.(memory := s'.memory, bkStart := s'.bkStart, bkEnd := s'.bkEnd, writing := s'.writing,
                        writer := s'.writer, log := s'.log)
  {
  }

  /** Reading changes nothing the writer's part of the invariant speaks of. */
  lemma ReaderKeepsWriter<T>(s: State<T>, busy: T)
    requires WriterInv(s) && Bounds(s)
    ensures WriterInv(ReaderMove(s, busy)) && Stored(ReaderMove(s, busy)) == Stored(s)
  {
    hide Contents, WriterAt;
  }

  /** What lies above the stored elements is untouched; all below the range is stored. */
  lemma WriterFacts<T>(s: State<T>, p: nat)
    requires WriterInv(s)
    ensures s.bkStart <= Stored(s) <= |s.memory| == |s.initial|
    ensures Stored(s) <= p < |s.memory| ==> s.memory[p] == s.initial[p]
    ensures p < s.bkStart ==> p < Stored(s)
  {
    assert Stored(s) <= p < |s.memory| ==>
        s.memory[Stored(s)..][p - Stored(s)] == s.initial[Stored(s)..][p - Stored(s)];
  }

  lemma FetchElements<T>(s: State<T>, busy: T)
    requires Inv(s, busy) && s.loop.Fetching?
    ensures Bounds(s)
    ensures var s' := ReaderMove(s, busy);
            forall i :: s.loop.mc - 1 - s.bottom <= i < |s.buffer| ==>
              Element(s'.buffer, i, s.bottom, s.memory, s.initial, Stored(s), s'.dataEnd, s'.fillerStart, busy)
  {
    InBounds(s, busy);
    hide WriterInv;
    var p, k := s.loop.mc - 1, s.loop.mc - 1 - s.bottom;
    WriterFacts(s, p);
    var s' := ReaderMove(s, busy);
    forall i | k <= i < |s.buffer|
      ensures Element(s'.buffer, i, s.bottom, s.memory, s.initial, Stored(s), s'.dataEnd, s'.fillerStart, busy)
    {
      if i > k {
        assert Element(s.buffer, i, s.bottom, s.memory, s.initial, Stored(s), s.dataEnd, s.fillerStart, busy);
      }
    }
  }

  lemma FetchKeeps<T>(s: State<T>, busy: T)
    requires Inv(s, busy) && s.loop.Fetching?
    ensures Bounds(s) && ReaderInv(ReaderMove(s, busy), busy)
  {
    FetchElements(s, busy);
    WriterFacts(s, s.loop.mc - 1);
    hide WriterInv, Element;
  }

  /** The steps that only load or touch a flag. */
  lemma LoadKeeps<T>(s: State<T>, busy: T)
    requires Inv(s, busy) && !s.loop.Fetching?
    ensures Bounds(s) && ReaderInv(ReaderMove(s, busy), busy)
  {
    assert Bounds(s) by { InBounds(s, busy); }
    assert s.bkStart == |s.log| && s.bkEnd <= s.bkStart + 1;
    hide Shaped, WriterInv, Ordered;
    var s' := ReaderMove(s, busy);
    assert Position(s') == Position(s);
    assert Stored(s') == Stored(s);
    if s.loop.Testing? && s.loop.mc != s.bottom {
      ShapeIsAbove(s.buffer, s.bottom, s.loop.mc, s.memory, s.initial, Stored(s), s.dataEnd, s.fillerStart,
                   s.begun, 1, busy);
    }
  }

  lemma ShapeIsAbove<T>(buffer: seq<T>, bottom: nat, mc: nat, memory: seq<T>, initial: seq<T>, stored: nat,
                        dataEnd: nat, fillerStart: nat, begun: nat, width: nat, busy: T)
    requires Shaped(buffer, bottom, mc, memory, initial, stored, dataEnd, fillerStart, begun, width, busy)
    ensures bottom <= mc
  {
    hide Element;
  }

  lemma ReaderKeeps<T>(s: State<T>, busy: T)
    requires Inv(s, busy)
    ensures Bounds(s) && Inv(ReaderMove(s, busy), busy)
  {
    InBounds(s, busy);
    hide ReaderInv, WriterInv, ReaderMove;
    ReaderKeepsWriter(s, busy);
    if s.loop.Fetching? {
      FetchKeeps(s, busy);
    } else {
      LoadKeeps(s, busy);
    }
  }

  lemma WriteKeeps<T>(s: State<T>, item: T, busy: T)
    requires Inv(s, busy) && s.writer.Resting?
    ensures Inv(s.(writer := Positioned(s.bkStart, item)), busy)
  {
    hide Shaped, Ordered, Contents;
  }

  lemma ReadKeeps<T>(s: State<T>, offset: int, buffer: seq<T>, busy: T)
    requires Inv(s, busy) && s.loop.Away?
    ensures Inv(StartRead(s, offset, buffer), busy)
  {
    hide Shaped, WriterInv;
    ReadKeepsWriter(s, offset, buffer);
    Lengths(s);
    if 0 <= offset && offset + |buffer| <= |s.memory| {
      NothingRead(buffer, offset, s.memory, s.initial, Stored(s), |s.log|, 1, busy);
    }
  }

  lemma NothingRead<T>(buffer: seq<T>, bottom: nat, memory: seq<T>, initial: seq<T>, stored: nat, begun: nat,
                       width: nat, busy: T)
    requires bottom + |buffer| <= |memory| == |initial|
    ensures var top := bottom + |buffer|;
            Shaped(buffer, bottom, top, memory, initial, stored, top, top, begun, width, busy)
  {
  }

  lemma ReadKeepsWriter<T>(s: State<T>, offset: int, buffer: seq<T>)
    requires WriterInv(s)
    ensures WriterInv(StartRead(s, offset, buffer))
  {
    hide Contents, WriterAt;
  }

  lemma Lengths<T>(s: State<T>)
    requires WriterInv(s)
    ensures |s.log| == s.bkStart && |s.memory| == |s.initial|
  {
  }

  lemma NextKeeps<T>(s: State<T>, a: Step<T>, busy: T)
    requires Inv(s, busy) && Possible(s, a)
    ensures Bounds(s) && Inv(Next(s, a, busy), busy)
  {
    hide Inv, WriterMove, ReaderMove, StartRead;
    InBounds(s, busy);
    match a
    case Write(item) => WriteKeeps(s, item, busy);
    case WriterStep => WriterKeeps(s, busy);
    case Read(offset, buffer) => ReadKeeps(s, offset, buffer, busy);
    case ReaderStep => ReaderKeeps(s, busy);
  }

  /** Every interleaving of the writer and the reader. */
  ghost predicate Run<T>(memory: seq<T>, busy: T, ss: seq<State<T>>, steps: seq<Step<T>>) {
    && |ss| == |steps| + 1
    && ss[0] == Begin(memory)
    && forall i :: 0 <= i < |steps| ==>
         Possible(ss[i], steps[i]) && Bounds(ss[i]) && ss[i + 1] == Next(ss[i], steps[i], busy)
  }

  lemma {:induction false} RunInv<T>(memory: seq<T>, busy: T, ss: seq<State<T>>, steps: seq<Step<T>>, k: nat)
    requires Run(memory, busy, ss, steps) && k < |ss|
    ensures Inv(ss[k], busy) && ss[k].initial == memory
  {
    hide Inv, Possible;
    if k == 0 {
      BeginInv(memory, busy);
    } else {
      RunInv(memory, busy, ss, steps, k - 1);
      assert Possible(ss[k - 1], steps[k - 1]);
      NextKeeps(ss[k - 1], steps[k - 1], busy);
    }
  }

  /** The items of the writes asked for, in order. */
  function Writes<T>(steps: seq<Step<T>>): seq<T> {
    if steps == [] then []
    else
      var earlier, a := Writes(steps[..|steps| - 1]), steps[|steps| - 1];
      if a.Write? then earlier + [a.item] else earlier
  }

  /** The item of a write that has not been committed. */
  function Pending<T>(w: Writer<T>): seq<T> {
    match w
    case Positioned(_, item) => [item]
    case Flagged(_, item) => [item]
    case Extending(_, item, _) => [item]
    case Opened(_, item) => [item]
    case Copied(_, item) => [item]
    case _ => []
  }

  lemma PendingStep<T>(s: State<T>, a: Step<T>, busy: T)
    requires Bounds(s) && Possible(s, a) && !Next(s, a, busy).writer.Full?
    ensures var s' := Next(s, a, busy);
            && !s.writer.Full?
            && s'.log + Pending(s'.writer) == s.log + Pending(s.writer) + (if a.Write? then [a.item] else [])
  {
  }

  /** The log is what was written: over every run the elements committed are the items of the writes
      asked for, in order, the last one being left out exactly while its write is under way or if the
      memory was full. */
  lemma {:induction false} LogIsWrites<T>(memory: seq<T>, busy: T, ss: seq<State<T>>, steps: seq<Step<T>>, k: nat)
    requires Run(memory, busy, ss, steps) && k < |ss|
    ensures var s, items := ss[k], Writes(steps[..k]);
            && (!s.writer.Full? ==> items == s.log + Pending(s.writer))
            && (s.writer.Full? ==> |items| == |memory| + 1 && s.log == items[..|memory|])
  {
    hide Possible, Next, Bounds, Pending;
    if k == 0 {
      assert Pending(ss[0].writer) == [] by { NothingPending(memory); }
    } else {
      var s, a, s' := ss[k - 1], steps[k - 1], ss[k];
      LogIsWrites(memory, busy, ss, steps, k - 1);
      RunInv(memory, busy, ss, steps, k - 1);
      assert Possible(s, a) && Bounds(s) && s' == Next(s, a, busy);
      assert steps[..k][..k - 1] == steps[..k - 1];
      if s'.writer.Full? {
        FillsExactly(s, a, busy);
      } else {
        PendingStep(s, a, busy);
      }
    }
  }

  lemma NothingPending<T>(memory: seq<T>)
    ensures Pending(Begin(memory).writer) == []
  {
  }

  /** The writer finds the memory full exactly when every position holds a committed element. */
  lemma FillsExactly<T>(s: State<T>, a: Step<T>, busy: T)
    requires Bounds(s) && Possible(s, a) && Inv(s, busy)
    ensures Next(s, a, busy).writer.Full? <==>
              a.WriterStep? && s.writer.Positioned? && |s.log| == |s.initial|
    ensures Next(s, a, busy).writer.Full? ==>
              Next(s, a, busy).log == s.log && !s.writer.Full? && |Pending(s.writer)| == 1 && !a.Write?
  {
    hide ReaderInv;
  }

  lemma {:induction false} LogGrows<T>(memory: seq<T>, busy: T, ss: seq<State<T>>, steps: seq<Step<T>>, i: nat, k: nat)
    requires Run(memory, busy, ss, steps) && i <= k < |ss|
    ensures |ss[i].log| <= |ss[k].log| && ss[k].log[..|ss[i].log|] == ss[i].log
    decreases k
  {
    hide Possible, Bounds;
    if i < k {
      LogGrows(memory, busy, ss, steps, i, k - 1);
      assert Possible(ss[k - 1], steps[k - 1]) && Bounds(ss[k - 1]);
      var log := ss[k - 1].log;
      assert ss[k].log[..|log|] == log;
    }
  }

  /** Step i asks for the read that is under way or finished in state k. */
  ghost predicate AskedAt<T>(steps: seq<Step<T>>, i: nat, k: nat) {
    i < k <= |steps| && steps[i].Read? && forall j :: i < j < k ==> !steps[j].Read?
  }

  /** What is read is what was asked for: an offset below zero and a range above the memory each give
      their own error; otherwise the reader fills, from its upper end down, a buffer of the size
      supplied from the offset supplied, and what it has not reached is as it was supplied. */
  lemma {:induction false} ReadsWhatWasAsked<T>(memory: seq<T>, busy: T, ss: seq<State<T>>, steps: seq<Step<T>>,
                                                i: nat, k: nat)
    requires Run(memory, busy, ss, steps) && k < |ss| && AskedAt(steps, i, k)
    ensures var s, o, b := ss[k], steps[i].offset, steps[i].buffer;
            && (s.loop.NegativeOffset? <==> o < 0)
            && (s.loop.OutOfBounds? <==> o >= 0 && |memory| < o + |b|)
            && (0 <= o && o + |b| <= |memory| ==>
                  && s.bottom == o && |s.buffer| == |b| && s.begun == |ss[i].log|
                  && o <= Position(s) <= o + |b|
                  && s.buffer[..Position(s) - o] == b[..Position(s) - o])
    decreases k
  {
    hide Inv, Possible, Bounds, Next;
    var s, a := ss[k - 1], steps[k - 1];
    RunInv(memory, busy, ss, steps, k - 1);
    assert Possible(s, a) && Bounds(s) && ss[k] == Next(s, a, busy);
    if i == k - 1 {
      Asked(s, a, busy);
    } else {
      ReadsWhatWasAsked(memory, busy, ss, steps, i, k - 1);
      StepKeepsAsked(s, a, busy);
      var o, b, m := steps[i].offset, steps[i].buffer, Position(ss[k]);
      if 0 <= o && o + |b| <= |memory| {
        assert s.buffer[..m - o] == s.buffer[..Position(s) - o][..m - o];
      }
    }
  }

  lemma Asked<T>(s: State<T>, a: Step<T>, busy: T)
    requires Bounds(s) && Possible(s, a) && Inv(s, busy) && a.Read?
    ensures var s', o, b := Next(s, a, busy), a.offset, a.buffer;
            && (s'.loop.NegativeOffset? <==> o < 0)
            && (s'.loop.OutOfBounds? <==> o >= 0 && |s.initial| < o + |b|)
            && (0 <= o && o + |b| <= |s.initial| ==>
                  s'.bottom == o && s'.buffer == b && s'.begun == |s.log| && Position(s') == o + |b|)
  {
    hide ReaderInv, Contents, WriterAt;
    assert |s.memory| == |s.initial| by { Lengths(s); }
  }

  lemma StepKeepsAsked<T>(s: State<T>, a: Step<T>, busy: T)
    requires Bounds(s) && Possible(s, a) && Inv(s, busy) && !a.Read?
    ensures var s' := Next(s, a, busy);
            && s'.bottom == s.bottom && |s'.buffer| == |s.buffer| && s'.begun == s.begun
            && !s.loop.NegativeOffset? && !s.loop.OutOfBounds?
            && !s'.loop.NegativeOffset? && !s'.loop.OutOfBounds?
            && s.bottom <= Position(s') <= Position(s) <= s.bottom + |s.buffer|
            && s'.buffer[..Position(s') - s.bottom] == s.buffer[..Position(s') - s.bottom]
  {
    hide Element, WriterInv;
  }

  /** What the writer has stored, in order. */
  function Data<T>(s: State<T>): seq<T> {
    s.log + (if s.writer.Copied? then [s.writer.item] else [])
  }

  /** Reader shape: whatever the interleaving, a read of n elements at an offset that was asked for by
      step i and is finished in state k has filled its buffer, from low to high position, with what the
      writer stored there, then at most two busy elements, then what the memory held before any write;
      and it returns exactly every element there that was committed when it was asked for. */
  lemma ReadShape<T>(memory: seq<T>, busy: T, ss: seq<State<T>>, steps: seq<Step<T>>, i: nat, k: nat)
    returns (a: nat, b: nat)
    requires Run(memory, busy, ss, steps) && k < |ss| && AskedAt(steps, i, k)
    requires ss[k].loop.Away? || (ss[k].loop.Testing? && ss[k].loop.mc == steps[i].offset)
    ensures var s, o, n := ss[k], steps[i].offset, |steps[i].buffer|;
            && 0 <= o && o + n <= |memory| && |s.buffer| == n && a <= b <= n && b <= a + 2
            && (a > 0 ==> o + a <= |Data(s)| && s.buffer[..a] == Data(s)[o..o + a])
            && (forall e :: a <= e < b ==> s.buffer[e] == busy)
            && s.buffer[b..] == memory[o + b..o + n]
            && (|ss[i].log| <= o + a || a == n)
            && |ss[i].log| <= |Data(s)| && Data(s)[..|ss[i].log|] == ss[i].log
  {
    var s := ss[k];
    RunInv(memory, busy, ss, steps, k);
    ReadsWhatWasAsked(memory, busy, ss, steps, i, k);
    LogGrows(memory, busy, ss, steps, i, k);
    assert Data(s)[..|ss[i].log|] == s.log[..|ss[i].log|];
    hide Inv, Run, Data, AskedAt;
    a, b := Shape(s, busy);
  }

  lemma Shape<T>(s: State<T>, busy: T) returns (a: nat, b: nat)
    requires Inv(s, busy) && Done(s)
    ensures var n, o := |s.buffer|, s.bottom;
            && o + n <= |s.initial| && a <= b <= n && b <= a + 2
            && (a > 0 ==> o + a <= |Data(s)| && s.buffer[..a] == Data(s)[o..o + a])
            && (forall e :: a <= e < b ==> s.buffer[e] == busy)
            && s.buffer[b..] == s.initial[o + b..o + n]
            && (s.begun <= o + a || a == n)
  {
    a, b := s.dataEnd - s.bottom, s.fillerStart - s.bottom;
    ShapeBounds(s, busy);
    hide Inv, Data;
    forall e | a <= e < |s.buffer|
      ensures e < b ==> s.buffer[e] == busy
      ensures b <= e ==> s.buffer[e] == s.initial[s.bottom + e]
    {
      ElementIs(s, e, busy);
    }
    if a > 0 {
      ElementIs(s, a - 1, busy);
      forall e | 0 <= e < a
        ensures s.buffer[e] == Data(s)[s.bottom..s.bottom + a][e]
      {
        ElementIs(s, e, busy);
      }
    }
  }

  /** Nothing is left to read. */
  predicate Done<T>(s: State<T>) {
    Position(s) == s.bottom
  }

  lemma ShapeBounds<T>(s: State<T>, busy: T)
    requires Inv(s, busy) && Done(s)
    ensures s.bottom <= s.dataEnd <= s.fillerStart <= s.bottom + |s.buffer| <= |s.initial|
    ensures s.fillerStart <= s.dataEnd + 2
    ensures s.begun <= s.dataEnd || s.dataEnd == s.bottom + |s.buffer|
    ensures s.begun <= |s.log|
  {
    hide Element;
  }

  lemma ElementIs<T>(s: State<T>, i: nat, busy: T)
    requires Inv(s, busy) && Done(s) && i < |s.buffer|
    ensures var p := s.bottom + i;
            && p < |s.initial|
            && (p < s.dataEnd ==> p < |Data(s)| && s.buffer[i] == Data(s)[p])
            && (s.dataEnd <= p < s.fillerStart ==> s.buffer[i] == busy)
            && (s.fillerStart <= p ==> s.buffer[i] == s.initial[p])
  {
    StoredIsData(s);
    var p := s.bottom + i;
    assert Element(s.buffer, i, s.bottom, s.memory, s.initial, Stored(s), s.dataEnd, s.fillerStart, busy);
    assert p < Stored(s) ==> s.memory[..Stored(s)][p] == s.memory[p];
  }

  lemma StoredIsData<T>(s: State<T>)
    requires WriterInv(s)
    ensures |Data(s)| == Stored(s) <= |s.memory| && s.memory[..Stored(s)] == Data(s)
  {
    if s.writer.Copied? {
      assert s.memory[..s.bkStart + 1] == s.memory[..s.bkStart] + [s.memory[s.bkStart]];
    }
  }

  // ----- The memory controller as an object, each call uninterrupted -----

  datatype Error = NegativeReadoffsetSupplied | ReadindexOutOfBounds | WriterBufferFull

  class MemoryController<T> {
    const memory: array<T>
    var bkStart: nat
    var bkEnd: nat
    var writing: bool
    var reading: bool

    ghost predicate Valid()
      reads this
    {
      bkStart == bkEnd <= memory.Length && writing && reading
    }

    constructor (storage: array<T>)
      ensures Valid() && memory == storage && bkStart == 0
    {
      memory := storage;
      bkStart, bkEnd, writing, reading := 0, 0, true, true;
    }

    /** `NonBlockingWriteTask::write`. */
    method Write(item: T) returns (r: Result<(), Error>)
      requires Valid()
      modifies this, memory
      ensures Valid()
      ensures r == if old(bkStart) < memory.Length then Ok(()) else Err(WriterBufferFull)
      ensures r.Ok? ==> bkStart == old(bkStart) + 1 && memory[..] == old(memory[..])[old(bkStart) := item]
      ensures r.Err? ==> bkStart == old(bkStart) && memory[..] == old(memory[..])
    {
      var writerPos := bkStart;
      if writerPos == memory.Length {
        return Err(WriterBufferFull);
      }
      writing := false;
      bkEnd := bkEnd + 1;
      memory[writerPos] := item;
      writerPos := writerPos + 1;
      bkStart := writerPos;
      writing := true;
      return Ok(());
    }

    /** `wait`: true while the writer is at work. */
    method Wait() returns (blocked: bool)
      modifies this
      ensures blocked == !old(writing) && writing == old(writing)
      ensures reading == (old(reading) && blocked)
      ensures bkStart == old(bkStart) && bkEnd == old(bkEnd)
    {
      var held := writing;
      writing := true;
      if !held {
        writing := false;
        return true;
      }
      reading := false;
      return false;
    }

    /** `read`: with the writer resting, exactly the element under its position is busy. */
    method Read(buffer: array<T>, readOffset: int, busy: T) returns (r: Result<(), Error>)
      requires Valid() && buffer != memory
      modifies this, buffer
      ensures Valid() && bkStart == old(bkStart)
      ensures r == if readOffset < 0 then Err(NegativeReadoffsetSupplied)
                   else if memory.Length < readOffset + buffer.Length then Err(ReadindexOutOfBounds)
                   else Ok(())
      ensures r.Err? ==> buffer[..] == old(buffer[..])
      ensures r.Ok? ==> forall i :: 0 <= i < buffer.Length ==>
                buffer[i] == if readOffset + i == bkStart then busy else memory[readOffset + i]
    {
      var rb := buffer.Length;
      if readOffset < 0 {
        return Err(NegativeReadoffsetSupplied);
      }
      var mc := readOffset + rb;
      if memory.Length < mc {
        return Err(ReadindexOutOfBounds);
      }
      while rb != 0
        invariant 0 <= rb <= buffer.Length && mc == readOffset + rb
        invariant Valid() && bkStart == old(bkStart)
        invariant forall i :: rb <= i < buffer.Length ==>
                    buffer[i] == if readOffset + i == bkStart then busy else memory[readOffset + i]
      {
        var blocked := Wait();
        if !blocked {
          rb := rb - 1;
          mc := mc - 1;
          if mc < bkStart || mc > bkEnd {
            buffer[rb] := memory[mc];
          } else {
            buffer[rb] := busy;
          }
          reading := true;
        }
      }
      return Ok(());
    }
  }
}
