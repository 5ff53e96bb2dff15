/** The ring buffer feeding the memory controller: each block the consumer takes from the ring is
    copied, element by element, behind the blocks before it, while the producer goes on. */
module RingToMemory {
  import Ring

  /** `RingBufferTaskImpl::write`, by what it does next. */
  datatype Copying =
    | Fresh
    | Fits(start: nat)
    | Lowered(start: nat)
    | Ranged
    | Raised
    | Filling(pos: nat, done: nat)
    | Filled(pos: nat)
    | Ending(pos: nat)
    | Ended
    | Checking
    | Finished
    | CharacterWriteRangeFailed
    | UnexpectedWritesLeft

  /** `writing` is true when the flag is set; `size` is the block size. */
  datatype State<T> = State(
    ring: Ring.State<seq<T>>,
    memory: seq<T>,
    bkStart: nat,
    bkEnd: nat,
    writing: bool,
    copying: Copying,
    size: nat)

  datatype Step<T> = Write(block: seq<T>) | ProducerStep | ConsumerStep

  function Start<T>(cells: seq<seq<T>>, memory: seq<T>, size: nat): State<T> {
    State(Ring.Start(cells), memory, 0, 0, true, Fresh, size)
  }

  /** What the accesses of the threads need to stay inside the ring, the block and the memory. */
  predicate Bounds<T>(s: State<T>) {
    && Ring.Bounds(s.ring)
    && (s.ring.consumer.Transferring? && s.copying.Filling? && s.copying.done < s.size ==>
          s.copying.pos < |s.memory| && s.copying.done < |s.ring.cells[s.ring.consumer.t]|)
  }

  /** One step of `write`, which reads the block where it is, in the ring's cell. */
  function Copy<T>(s: State<T>): State<T>
    requires Bounds(s) && s.ring.consumer.Transferring?
  {
    match s.copying
    case Fresh =>
      s.(copying := if s.size <= |s.memory| - s.bkStart then Fits(s.bkStart) else CharacterWriteRangeFailed)
    case Fits(start) => s.(writing := false, copying := Lowered(start))
    case Lowered(start) => s.(bkEnd := start + s.size, copying := Ranged)
    case Ranged => s.(writing := true, copying := Raised)
    case Raised => s.(copying := Filling(s.bkStart, 0))
    case Filling(pos, done) =>
      if done >= s.size then s.(copying := Filled(pos))
      else
        s.(memory := s.memory[pos := s.ring.cells[s.ring.consumer.t][done]], copying := Filling(pos + 1, done + 1))
    case Filled(pos) => s.(writing := false, copying := Ending(pos))
    case Ending(pos) => s.(bkStart := pos, copying := Ended)
    case Ended => s.(writing := true, copying := Checking)
    case Checking => s.(copying := if s.bkStart != s.bkEnd then UnexpectedWritesLeft else Finished)
    case Finished => s.(ring := Ring.Consume(s.ring), copying := Fresh)
    case _ => s
  }

  /** Aborts end the process. */
  predicate Possible<T>(s: State<T>, a: Step<T>) {
    && !s.ring.producer.Aborted? && !s.copying.CharacterWriteRangeFailed? && !s.copying.UnexpectedWritesLeft?
    && (a.Write? ==> s.ring.producer.Ready? && |a.block| == s.size)
  }

  function Next<T>(s: State<T>, a: Step<T>): State<T>
    requires Bounds(s)
  {
    match a
    case Write(block) => s.(ring := Ring.Next(s.ring, Ring.Write(block)))
    case ProducerStep => s.(ring := Ring.Produce(s.ring))
    case ConsumerStep => if s.ring.consumer.Transferring? then Copy(s) else s.(ring := Ring.Consume(s.ring))
  }

  // ----- The invariant -----

  function Concat<T>(blocks: seq<seq<T>>): seq<T> {
    if blocks == [] then [] else Concat(blocks[..|blocks| - 1]) + blocks[|blocks| - 1]
  }

  /** Blocks whose elements lie below `bkStart`. */
  function Complete<T>(s: State<T>): nat {
    |s.ring.transferred| + (if s.copying.Ended? || s.copying.Checking? || s.copying.Finished? then 1 else 0)
  }

  ghost predicate BlocksFit<T>(r: Ring.State<seq<T>>, size: nat) {
    && (forall i :: 0 <= i < |r.written| ==> |r.written[i]| == size)
    && match r.producer
       case Loaded(_, item) => |item| == size
       case Cleared(_, item) => |item| == size
       case Copied(_, item) => |item| == size
       case _ => true
  }

  /** What the copy in progress has done; `block` is the block it copies. */
  ghost predicate CopyInv<T>(s: State<T>, block: seq<T>) {
    match s.copying
    case Fits(start) => start == s.bkStart == s.bkEnd && s.bkStart + s.size <= |s.memory|
    case Lowered(start) => start == s.bkStart == s.bkEnd && s.bkStart + s.size <= |s.memory|
    case Ranged => s.bkEnd == s.bkStart + s.size <= |s.memory|
    case Raised => s.bkEnd == s.bkStart + s.size <= |s.memory|
    case Filling(pos, done) =>
      && s.bkEnd == s.bkStart + s.size <= |s.memory|
      && done <= s.size == |block| && pos == s.bkStart + done && s.memory[s.bkStart..pos] == block[..done]
    case Filled(pos) =>
      s.bkEnd == s.bkStart + s.size <= |s.memory| && pos == s.bkEnd && s.memory[s.bkStart..pos] == block
    case Ending(pos) =>
      s.bkEnd == s.bkStart + s.size <= |s.memory| && pos == s.bkEnd && s.memory[s.bkStart..pos] == block
    case UnexpectedWritesLeft => false
    case _ => s.bkEnd == s.bkStart
  }

  /** The block the consumer transfers next. */
  function Block<T>(s: State<T>): seq<T> {
    var q := |s.ring.transferred|;
    if q < |s.ring.written| then s.ring.written[q] else []
  }

  ghost predicate Inv<T>(s: State<T>) {
    && Ring.Inv(s.ring)
    && BlocksFit(s.ring, s.size)
    && (!s.copying.Fresh? ==> s.ring.consumer.Transferring?)
    && Complete(s) <= |s.ring.written|
    && s.bkStart <= s.bkEnd <= |s.memory|
    && s.memory[..s.bkStart] == Concat(s.ring.written[..Complete(s)])
    && CopyInv(s, Block(s))
  }

  lemma StartInv<T>(cells: seq<seq<T>>, memory: seq<T>, size: nat)
    requires |cells| >= 2
    ensures Inv(Start(cells, memory, size))
  {
    Ring.StartInv(cells);
  }

  /** The cell being copied holds the next block, whatever the producer does. */
  lemma CellIsBlock<T>(s: State<T>)
    requires Inv(s) && s.ring.consumer.Transferring?
    ensures |s.ring.transferred| < |s.ring.written| && |Block(s)| == s.size
    ensures Ring.Bounds(s.ring) && s.ring.cells[s.ring.consumer.t] == Block(s)
  {
    hide Concat, CopyInv, Ring.Index, Ring.Kept;
    Ring.ConsumeKeeps(s.ring);
    Ring.KeptFrom(s.ring.cells, s.ring.written, Ring.Released(s.ring));
  }

  lemma InBounds<T>(s: State<T>)
    requires Inv(s)
    ensures Bounds(s)
  {
    hide Concat, Ring.Inv;
    assert Ring.Bounds(s.ring) by { Ring.ConsumeKeeps(s.ring); }
    if s.ring.consumer.Transferring? {
      CellIsBlock(s);
    }
  }

  lemma ProducerEffect<T>(r: Ring.State<seq<T>>, size: nat)
    requires Ring.Bounds(r) && BlocksFit(r, size)
    ensures var r' := Ring.Produce(r);
            && r'.consumer == r.consumer && r'.transferred == r.transferred
            && BlocksFit(r', size)
            && |r'.written| >= |r.written| && r'.written[..|r.written|] == r.written
  {
  }

  lemma ProducerKeeps<T>(s: State<T>)
    requires Inv(s)
    ensures Bounds(s) && Inv(s.(ring := Ring.Produce(s.ring)))
  {
    hide Concat, CopyInv, BlocksFit, Ring.Inv, Ring.Produce;
    InBounds(s);
    Ring.ProduceKeeps(s.ring);
    ProducerEffect(s.ring, s.size);
    var s' := s.(ring := Ring.Produce(s.ring));
    var n := Complete(s);
    assert s'.ring.written[..n] == s'.ring.written[..|s.ring.written|][..n] == s.ring.written[..n];
    if !s.copying.Fresh? {
      CellIsBlock(s);
      assert s'.ring.written[..|s.ring.written|][|s.ring.transferred|] == Block(s);
    }
    RingAside(s, s'.ring, Block(s), Block(s'));
  }

  lemma CopyKeeps<T>(s: State<T>)
    requires Inv(s) && s.ring.consumer.Transferring? && !s.copying.Finished?
    ensures Bounds(s) && Inv(Copy(s))
  {
    hide Ring.Inv, BlocksFit;
    InBounds(s);
    CellIsBlock(s);
    match s.copying
    case Filling(pos, done) => FillKeeps(s);
    case Ending(pos) => EndKeeps(s);
    case _ =>
  }

  lemma FillKeeps<T>(s: State<T>)
    requires Inv(s) && s.ring.consumer.Transferring? && s.copying.Filling?
    ensures Bounds(s) && Inv(Copy(s))
  {
    hide Ring.Inv, BlocksFit, Concat;
    InBounds(s);
    CellIsBlock(s);
    var s', block := Copy(s), Block(s);
    var pos, done := s.copying.pos, s.copying.done;
    assert s'.memory[..s.bkStart] == s.memory[..s.bkStart];
    if done < s.size {
      assert s'.memory[s.bkStart..pos + 1] == s.memory[s.bkStart..pos] + [block[done]];
      assert block[..done + 1] == block[..done] + [block[done]];
    } else {
      assert block[..done] == block;
    }
  }

  lemma EndKeeps<T>(s: State<T>)
    requires Inv(s) && s.ring.consumer.Transferring? && s.copying.Ending?
    ensures Bounds(s) && Inv(Copy(s))
  {
    hide Ring.Inv, BlocksFit;
    InBounds(s);
    CellIsBlock(s);
    var q, pos := |s.ring.transferred|, s.copying.pos;
    assert s.memory[..pos] == s.memory[..s.bkStart] + s.memory[s.bkStart..pos];
    assert s.ring.written[..q + 1][..q] == s.ring.written[..q];
  }

  lemma ConsumerKeeps<T>(s: State<T>)
    requires Inv(s) && (s.ring.consumer.Transferring? ==> s.copying.Finished?)
    ensures Bounds(s) && Inv(s.(ring := Ring.Consume(s.ring), copying := Fresh))
  {
    hide Concat, Ring.Inv;
    InBounds(s);
    Ring.ConsumeKeeps(s.ring);
  }

  lemma NextKeeps<T>(s: State<T>, a: Step<T>)
    requires Inv(s) && Possible(s, a)
    ensures Bounds(s) && Inv(Next(s, a))
  {
    hide Concat, CopyInv, Copy, Ring.Inv, Ring.Consume, Ring.Produce;
    InBounds(s);
    match a
    case Write(block) =>
      Ring.NextKeeps(s.ring, Ring.Write(block));
      RingAside(s, Next(s, a).ring, Block(s), Block(s));
    case ProducerStep => ProducerKeeps(s);
    case ConsumerStep =>
      if s.ring.consumer.Transferring? && !s.copying.Finished? {
        CopyKeeps(s);
      } else {
        ConsumerKeeps(s);
        if s.ring.consumer.Transferring? {
          Finishes(s);
        }
      }
  }

  lemma RingAside<T>(s: State<T>, ring: Ring.State<seq<T>>, block: seq<T>, block': seq<T>)
    requires block' == block || s.copying.Fresh?
    ensures CopyInv(s.(ring := ring), block') == CopyInv(s, block)
  {
  }

  lemma Finishes<T>(s: State<T>)
    requires Bounds(s) && s.ring.consumer.Transferring? && s.copying.Finished?
    ensures Copy(s) == s.(ring := Ring.Consume(s.ring), copying := Fresh)
  {
  }

  /** Every interleaving of the producer and the consumer. */
  ghost predicate Run<T>(cells: seq<seq<T>>, memory: seq<T>, size: nat, ss: seq<State<T>>, steps: seq<Step<T>>) {
    && |cells| >= 2
    && |ss| == |steps| + 1
    && ss[0] == Start(cells, memory, size)
    && forall i :: 0 <= i < |steps| ==> Possible(ss[i], steps[i]) && Bounds(ss[i]) && ss[i + 1] == Next(ss[i], steps[i])
  }

  lemma {:induction false} RunInv<T>(cells: seq<seq<T>>, memory: seq<T>, size: nat, ss: seq<State<T>>,
                                     steps: seq<Step<T>>, k: nat)
    requires Run(cells, memory, size, ss, steps) && k < |ss|
    ensures Inv(ss[k]) && |ss[k].memory| == |memory| && ss[k].size == size
  {
    hide Inv, Possible, Ring.Consume, Ring.Produce;
    if k == 0 {
      StartInv(cells, memory, size);
    } else {
      RunInv(cells, memory, size, ss, steps, k - 1);
      assert Possible(ss[k - 1], steps[k - 1]);
      NextKeeps(ss[k - 1], steps[k - 1]);
    }
  }

  /** The blocks the producer was given, in order. */
  function Blocks<T>(steps: seq<Step<T>>): seq<seq<T>> {
    if steps == [] then []
    else
      var earlier, a := Blocks(steps[..|steps| - 1]), steps[|steps| - 1];
      if a.Write? then earlier + [a.block] else earlier
  }

  /** Every run holds a run of the ring, with the same blocks given to its producer. */
  lemma {:induction false} RunIsRingRun<T>(cells: seq<seq<T>>, memory: seq<T>, size: nat, ss: seq<State<T>>,
                                           steps: seq<Step<T>>, k: nat)
    returns (rs: seq<Ring.State<seq<T>>>, ringSteps: seq<Ring.Step<seq<T>>>)
    requires Run(cells, memory, size, ss, steps) && k < |ss|
    ensures Ring.Run(cells, rs, ringSteps) && rs[|ringSteps|] == ss[k].ring
    ensures Ring.Writes(ringSteps) == Blocks(steps[..k])
  {
    if k == 0 {
      rs, ringSteps := [Ring.Start(cells)], [];
    } else {
      var s, a := ss[k - 1], steps[k - 1];
      rs, ringSteps := RunIsRingRun(cells, memory, size, ss, steps, k - 1);
      assert Possible(s, a) && Bounds(s) && ss[k] == Next(s, a);
      assert steps[..k][..k - 1] == steps[..k - 1];
      hide Run, Blocks, Next, Possible, Bounds, Ring.Run, Ring.Writes, RingSteps;
      BlocksStep(steps[..k]);
      RingFollows(s, a);
      if RingSteps(s, a) != [] {
        RingRunGrows(cells, rs, ringSteps, RingSteps(s, a)[0]);
        rs, ringSteps := rs + [ss[k].ring], ringSteps + RingSteps(s, a);
      }
    }
  }

  /** The ring's part of a step; copying is none. */
  function RingSteps<T>(s: State<T>, a: Step<T>): seq<Ring.Step<seq<T>>> {
    match a
    case Write(block) => [Ring.Write(block)]
    case ProducerStep => [Ring.ProducerStep]
    case ConsumerStep =>
      if s.ring.consumer.Transferring? && !s.copying.Finished? then [] else [Ring.ConsumerStep]
  }

  lemma RingFollows<T>(s: State<T>, a: Step<T>)
    requires Bounds(s) && Possible(s, a)
    ensures var rs, ring' := RingSteps(s, a), Next(s, a).ring;
            if rs == [] then ring' == s.ring && !a.Write?
            else
              && |rs| == 1 && Ring.Bounds(s.ring) && Ring.Possible(s.ring, rs[0])
              && ring' == Ring.Next(s.ring, rs[0])
              && (a.Write? <==> rs[0].Write?) && (a.Write? ==> rs[0].item == a.block)
  {
    hide Ring.Produce, Ring.Consume;
  }

  lemma BlocksStep<T>(steps: seq<Step<T>>)
    requires steps != []
    ensures var a := steps[|steps| - 1];
            Blocks(steps) == Blocks(steps[..|steps| - 1]) + (if a.Write? then [a.block] else [])
  {
  }

  lemma RingRunGrows<T>(cells: seq<seq<T>>, rs: seq<Ring.State<seq<T>>>, ringSteps: seq<Ring.Step<seq<T>>>,
                        a: Ring.Step<seq<T>>)
    requires Ring.Run(cells, rs, ringSteps)
    requires var s := rs[|ringSteps|]; Ring.Bounds(s) && Ring.Possible(s, a)
    ensures Ring.Run(cells, rs + [Ring.Next(rs[|ringSteps|], a)], ringSteps + [a])
    ensures Ring.Writes(ringSteps + [a]) == Ring.Writes(ringSteps) + (if a.Write? then [a.item] else [])
  {
    hide Ring.Bounds, Ring.Possible, Ring.Next;
    assert (ringSteps + [a])[..|ringSteps|] == ringSteps;
  }

  /** End to end: below `bkStart` the memory is, in every reachable state, the blocks given to the
      producer in order, up to the last one completely copied, which is the last one transferred or
      the one after; the write range stays in order and in the memory; and the check for unexpected
      writes left never fails. */
  lemma EndToEnd<T>(cells: seq<seq<T>>, memory: seq<T>, size: nat, ss: seq<State<T>>, steps: seq<Step<T>>, k: nat)
    requires Run(cells, memory, size, ss, steps) && k < |ss|
    ensures var s, blocks := ss[k], Blocks(steps[..k]);
            && Complete(s) <= |s.ring.written| <= |blocks| && s.ring.written == blocks[..|s.ring.written|]
            && s.bkStart <= s.bkEnd <= |s.memory| == |memory|
            && s.memory[..s.bkStart] == Concat(blocks[..Complete(s)])
            && !s.copying.UnexpectedWritesLeft?
  {
    hide Ring.Inv, Concat;
    RunInv(cells, memory, size, ss, steps, k);
    var rs, ringSteps := RunIsRingRun(cells, memory, size, ss, steps, k);
    assert ringSteps[..|ringSteps|] == ringSteps;
    Ring.PublishedAsGiven(cells, rs, ringSteps, |ringSteps|);
    var written, blocks, n := ss[k].ring.written, Blocks(steps[..k]), Complete(ss[k]);
    assert written == blocks[..|written|];
    assert blocks[..|written|][..n] == blocks[..n];
  }

  lemma {:induction false} ConcatLength<T>(blocks: seq<seq<T>>, size: nat)
    requires forall i :: 0 <= i < |blocks| ==> |blocks[i]| == size
    ensures |Concat(blocks)| == |blocks| * size
  {
    if blocks != [] {
      ConcatLength(blocks[..|blocks| - 1], size);
      assert |blocks| * size == (|blocks| - 1) * size + size;
    }
  }

  /** About to store the end or the start of the range, or just past it. */
  predicate Storing(c: Copying) {
    c.Lowered? || c.Ranged? || c.Ending? || c.Ended?
  }

  lemma {:induction false} FlagRun<T>(cells: seq<seq<T>>, memory: seq<T>, size: nat, ss: seq<State<T>>,
                                      steps: seq<Step<T>>, k: nat)
    requires Run(cells, memory, size, ss, steps) && k < |ss|
    ensures !ss[k].writing <==> Storing(ss[k].copying)
  {
    hide Ring.Consume, Ring.Produce;
    if k > 0 {
      FlagRun(cells, memory, size, ss, steps, k - 1);
      assert Possible(ss[k - 1], steps[k - 1]) && Bounds(ss[k - 1]);
    }
  }

  /** The writing flag over every run: it is clear exactly around each of the two stores to the range,
      while the consumer is between the clear before and the test_and_set after it; so the stores fall
      in those times, and between two blocks the flag is set. */
  lemma WritingExactly<T>(cells: seq<seq<T>>, memory: seq<T>, size: nat, ss: seq<State<T>>, steps: seq<Step<T>>, k: nat)
    requires Run(cells, memory, size, ss, steps) && k < |ss|
    ensures !ss[k].writing <==> Storing(ss[k].copying)
    ensures k < |steps| && (ss[k + 1].bkStart != ss[k].bkStart || ss[k + 1].bkEnd != ss[k].bkEnd) ==>
              !ss[k].writing && !ss[k + 1].writing
    ensures !ss[k].ring.consumer.Transferring? ==> ss[k].writing
  {
    hide Ring.Inv, Ring.Consume, Ring.Produce, Concat;
    RunInv(cells, memory, size, ss, steps, k);
    FlagRun(cells, memory, size, ss, steps, k);
    if k < |steps| {
      FlagRun(cells, memory, size, ss, steps, k + 1);
      RunInv(cells, memory, size, ss, steps, k + 1);
      assert Possible(ss[k], steps[k]) && Bounds(ss[k]) && ss[k + 1] == Next(ss[k], steps[k]);
    }
  }

  /** Up to where elements have been stored; those from `bkStart` on are not committed yet. */
  function Stored<T>(s: State<T>): nat {
    match s.copying
    case Filling(pos, _) => pos
    case Filled(pos) => pos
    case Ending(pos) => pos
    case _ => s.bkStart
  }

  /** The range moves up only, and a step stores at most one element, just above those stored. */
  lemma StoresUpwards<T>(s: State<T>, a: Step<T>)
    requires Inv(s) && Bounds(s) && Possible(s, a)
    ensures var s' := Next(s, a);
            && |s'.memory| == |s.memory| && s'.size == s.size
            && s.bkStart <= s'.bkStart && s.bkEnd <= s'.bkEnd && Stored(s) <= Stored(s')
            && (forall p :: 0 <= p < |s.memory| && (p < Stored(s) || Stored(s') <= p) ==> s'.memory[p] == s.memory[p])
    ensures s.bkStart <= Stored(s) <= s.bkEnd <= |s.memory| && s.bkEnd <= s.bkStart + s.size
  {
    hide Ring.Inv, Ring.Consume, Ring.Produce, Concat, BlocksFit;
  }

  lemma {:induction false} AboveUntouched<T>(cells: seq<seq<T>>, memory: seq<T>, size: nat, ss: seq<State<T>>,
                                             steps: seq<Step<T>>, k: nat)
    requires Run(cells, memory, size, ss, steps) && k < |ss|
    ensures |ss[k].memory| == |memory|
    ensures forall p :: Stored(ss[k]) <= p < |memory| ==> ss[k].memory[p] == memory[p]
  {
    hide Inv, Possible, Next, Bounds, Stored;
    if k > 0 {
      var s, a := ss[k - 1], steps[k - 1];
      AboveUntouched(cells, memory, size, ss, steps, k - 1);
      RunInv(cells, memory, size, ss, steps, k - 1);
      assert Possible(s, a) && Bounds(s) && ss[k] == Next(s, a);
      StoresUpwards(s, a);
    }
  }

  lemma {:induction false} ConcatPrefix<T>(blocks: seq<seq<T>>, n: nat)
    requires n <= |blocks|
    ensures |Concat(blocks[..n])| <= |Concat(blocks)|
    ensures Concat(blocks)[..|Concat(blocks[..n])|] == Concat(blocks[..n])
  {
    if n == |blocks| {
      assert blocks[..n] == blocks;
    } else {
      var init := blocks[..|blocks| - 1];
      ConcatPrefix(init, n);
      assert init[..n] == blocks[..n];
      assert Concat(blocks)[..|Concat(init)|] == Concat(init);
    }
  }

  /** The block being copied continues what has been committed. */
  lemma PartIsGiven<T>(s: State<T>)
    requires Inv(s)
    ensures s.bkStart <= Stored(s) <= |s.memory| && Complete(s) <= |s.ring.written|
    ensures s.memory[..s.bkStart] == Concat(s.ring.written[..Complete(s)])
    ensures Stored(s) > s.bkStart ==>
              && Complete(s) < |s.ring.written| && Stored(s) - s.bkStart <= |s.ring.written[Complete(s)]|
              && s.memory[s.bkStart..Stored(s)] == s.ring.written[Complete(s)][..Stored(s) - s.bkStart]
  {
    hide Ring.Inv, Concat;
    if s.ring.consumer.Transferring? {
      CellIsBlock(s);
    }
  }

  /** The whole memory, over every run: up to the last element stored it is what was given to the
      producer, block after block, and above that what it was before any write. */
  lemma WholeMemory<T>(cells: seq<seq<T>>, memory: seq<T>, size: nat, ss: seq<State<T>>, steps: seq<Step<T>>, k: nat)
    requires Run(cells, memory, size, ss, steps) && k < |ss|
    ensures var s, given := ss[k], Concat(Blocks(steps[..k]));
            && s.bkStart <= Stored(s) <= s.bkEnd <= |s.memory| == |memory| && Stored(s) <= |given|
            && s.memory == given[..Stored(s)] + memory[Stored(s)..]
  {
    hide *;
    assert k <= |steps| by { RunLength(cells, memory, size, ss, steps); }
    var s, blocks, memory' := ss[k], Blocks(steps[..k]), ss[k].memory;
    RunInv(cells, memory, size, ss, steps, k);
    EndToEnd(cells, memory, size, ss, steps, k);
    AboveUntouched(cells, memory, size, ss, steps, k);
    PartIsGiven(s);
    RangeHolds(s);
    var n, start, end, written := Complete(s), s.bkStart, Stored(s), s.ring.written;
    if end > start {
      assert written[n] == blocks[n];
    }
    Splices(memory', blocks, n, start, end);
    assert memory'[end..] == memory[end..];
    assert memory' == memory'[..end] + memory'[end..];
  }

  lemma RunLength<T>(cells: seq<seq<T>>, memory: seq<T>, size: nat, ss: seq<State<T>>, steps: seq<Step<T>>)
    requires Run(cells, memory, size, ss, steps)
    ensures |ss| == |steps| + 1
  {
  }

  /** Whole blocks and a part of the next one are a prefix of all. */
  lemma Splices<T>(memory: seq<T>, blocks: seq<seq<T>>, n: nat, start: nat, end: nat)
    requires n <= |blocks| && start <= end <= |memory| && memory[..start] == Concat(blocks[..n])
    requires end > start ==>
               n < |blocks| && end - start <= |blocks[n]| && memory[start..end] == blocks[n][..end - start]
    ensures end <= |Concat(blocks)| && memory[..end] == Concat(blocks)[..end]
  {
    hide Concat;
    ConcatPrefix(blocks, n);
    if end > start {
      ConcatPrefix(blocks, n + 1);
      ConcatNext(blocks, n);
      var more := Concat(blocks[..n + 1]);
      assert Concat(blocks)[..end] == more[..end];
      assert memory[..end] == memory[..start] + memory[start..end];
    }
  }

  lemma ConcatNext<T>(blocks: seq<seq<T>>, n: nat)
    requires n < |blocks|
    ensures Concat(blocks[..n + 1]) == Concat(blocks[..n]) + blocks[n]
  {
    assert blocks[..n + 1][..n] == blocks[..n];
  }

  lemma RangeHolds<T>(s: State<T>)
    requires Inv(s)
    ensures s.bkStart <= Stored(s) <= s.bkEnd <= |s.memory| && s.bkEnd <= s.bkStart + s.size
  {
    hide Ring.Inv, Concat, BlocksFit;
  }

  /** The range error is raised exactly when the memory has no room for one more block. */
  lemma RangeFailsExactly<T>(s: State<T>)
    requires Inv(s) && s.ring.consumer.Transferring? && s.copying.Fresh?
    ensures Bounds(s)
    ensures Copy(s).copying.CharacterWriteRangeFailed? <==> (|s.ring.transferred| + 1) * s.size > |s.memory|
  {
    hide Ring.Inv, Concat;
    InBounds(s);
    var blocks := s.ring.written[..|s.ring.transferred|];
    ConcatLength(blocks, s.size);
    assert |s.memory[..s.bkStart]| == |blocks| * s.size;
    assert (|blocks| + 1) * s.size == |blocks| * s.size + s.size;
  }

  // ----- The copy alone -----

  /** The memory with the block at position `at`. */
  function Placed<T>(memory: seq<T>, at: nat, block: seq<T>): (m: seq<T>)
    requires at + |block| <= |memory|
    ensures |m| == |memory|
  {
    memory[..at] + block + memory[at + |block|..]
  }

  lemma PlacedOne<T>(memory: seq<T>, pos: nat, block: seq<T>, done: nat)
    requires done < |block| && pos + |block| - done <= |memory|
    ensures Placed(memory[pos := block[done]], pos + 1, block[done + 1..]) == Placed(memory, pos, block[done..])
  {
  }

  function CopyFor<T>(s: State<T>, n: nat): State<T>
    decreases n
  {
    if n == 0 || !Bounds(s) || !s.ring.consumer.Transferring? then s else CopyFor(Copy(s), n - 1)
  }

  lemma CopyOne<T>(s: State<T>, s': State<T>, n: nat)
    requires Bounds(s) && s.ring.consumer.Transferring? && Copy(s) == s'
    ensures CopyFor(s, n + 1) == CopyFor(s', n)
  {
    hide Copy;
  }

  /** The loop puts the rest of the block in its place. */
  lemma {:induction false} FillsAlone<T>(s: State<T>, pos: nat, done: nat, block: seq<T>, n: nat)
    requires s.ring.consumer.Transferring? && Ring.Bounds(s.ring) && s.ring.cells[s.ring.consumer.t] == block
    requires s.copying == Filling(pos, done) && done <= |block| == s.size && pos + s.size - done <= |s.memory|
    ensures CopyFor(s, s.size - done + n) ==
              CopyFor(s.(memory := Placed(s.memory, pos, block[done..]),
                         copying := Filling(pos + s.size - done, s.size)), n)
    decreases |block| - done
  {
    if done < |block| {
      var s' := Copy(s);
      PlacedOne(s.memory, pos, block, done);
      CopyOne(s, s', s.size - done - 1 + n);
      FillsAlone(s', pos + 1, done + 1, block, n);
    } else {
      assert Placed(s.memory, pos, block[done..]) == s.memory;
    }
  }

  /** One block, by the consumer alone: after ten steps and one for each element it is in the memory
      behind the blocks before it, the range is past it and the flag is set; nothing else has changed. */
  lemma CopiesAlone<T>(s: State<T>)
    requires Inv(s) && s.ring.consumer.Transferring? && s.copying.Fresh? && s.writing
    requires s.bkStart + s.size <= |s.memory|
    ensures |Block(s)| == s.size
    ensures CopyFor(s, s.size + 10) ==
              s.(memory := Placed(s.memory, s.bkStart, Block(s)), bkStart := s.bkStart + s.size,
                 bkEnd := s.bkStart + s.size, writing := true, copying := Finished)
  {
    CellIsBlock(s);
    FreshIsEmpty(s);
    hide Inv, Block;
    RoundAlone(s, Block(s));
  }

  lemma RoundAlone<T>(s: State<T>, block: seq<T>)
    requires Ring.Bounds(s.ring) && s.ring.consumer.Transferring? && s.ring.cells[s.ring.consumer.t] == block
    requires s.copying.Fresh? && s.bkStart == s.bkEnd && s.bkStart + s.size <= |s.memory| && s.writing
    requires |block| == s.size
    ensures CopyFor(s, s.size + 10) ==
              s.(memory := Placed(s.memory, s.bkStart, block), bkStart := s.bkStart + s.size,
                 bkEnd := s.bkStart + s.size, writing := true, copying := Finished)
  {
    hide CopyFor, Placed;
    var at, size := s.bkStart, s.size;
    var s1 := s.(bkEnd := at + size, copying := Filling(at, 0));
    assert CopyFor(s, size + 10) == CopyFor(s1, size + 5) by { BeginsAlone(s, size + 5); }
    var s2 := s1.(memory := Placed(s.memory, at, block), copying := Filling(at + size, size));
    assert CopyFor(s1, size + 5) == CopyFor(s2, 5) by {
      FillsAlone(s1, at, 0, block, 5);
      assert block[0..] == block;
    }
    EndsAlone(s2);
  }

  lemma FreshIsEmpty<T>(s: State<T>)
    requires Inv(s) && s.copying.Fresh?
    ensures s.bkEnd == s.bkStart
  {
    hide Ring.Inv, Concat, BlocksFit;
  }

  lemma BeginsAlone<T>(s: State<T>, n: nat)
    requires Ring.Bounds(s.ring) && s.ring.consumer.Transferring? && s.copying.Fresh?
    requires s.bkStart + s.size <= |s.memory| && s.writing
    ensures CopyFor(s, n + 5) == CopyFor(s.(bkEnd := s.bkStart + s.size, copying := Filling(s.bkStart, 0)), n)
  {
    hide CopyFor;
    var at := s.bkStart;
    var s1 := s.(copying := Fits(at));
    var s2 := s1.(writing := false, copying := Lowered(at));
    var s3 := s2.(bkEnd := at + s.size, copying := Ranged);
    var s4 := s3.(writing := true, copying := Raised);
    CopyOne(s, s1, n + 4);
    CopyOne(s1, s2, n + 3);
    CopyOne(s2, s3, n + 2);
    CopyOne(s3, s4, n + 1);
    CopyOne(s4, s4.(copying := Filling(at, 0)), n);
  }

  lemma EndsAlone<T>(s: State<T>)
    requires Ring.Bounds(s.ring) && s.ring.consumer.Transferring? && s.copying == Filling(s.bkEnd, s.size) && s.writing
    ensures CopyFor(s, 5) == s.(bkStart := s.bkEnd, copying := Finished)
  {
    var s1 := s.(copying := Filled(s.bkEnd));
    var s2 := s1.(writing := false, copying := Ending(s.bkEnd));
    var s3 := s2.(bkStart := s.bkEnd, copying := Ended);
    var s4 := s3.(writing := true, copying := Checking);
    CopyOne(s, s1, 4);
    CopyOne(s1, s2, 3);
    CopyOne(s2, s3, 2);
    CopyOne(s3, s4, 1);
    CopyOne(s4, s4.(copying := Finished), 0);
  }

  // ----- The writer as an object, each call uninterrupted -----

  class BlockWriter<T> {
    const memory: array<T>
    var bkStart: nat
    var bkEnd: nat
    var writing: bool

    ghost predicate Valid()
      reads this
    {
      bkStart == bkEnd <= memory.Length && writing
    }

    constructor (storage: array<T>, filler: T)
      modifies storage
      ensures Valid() && memory == storage && bkStart == 0
      ensures forall i :: 0 <= i < memory.Length ==> memory[i] == filler
    {
      memory := storage;
      bkStart, bkEnd, writing := 0, 0, true;
      new;
      for i := 0 to storage.Length
        invariant memory == storage && bkStart == 0 && Valid()
        invariant forall k :: 0 <= k < i ==> storage[k] == filler
      {
        storage[i] := filler;
      }
    }

    /** `RingBufferTaskImpl::write`: the block goes behind what is there, or nothing changes. The check
        at its end is dead. */
    method Write(block: array<T>) returns (fits: bool)
      requires Valid() && block != memory
      modifies this, memory
      ensures Valid()
      ensures fits <==> old(bkStart) + block.Length <= memory.Length
      ensures bkStart == old(bkStart) + (if fits then block.Length else 0)
      ensures memory[..bkStart] == old(memory[..bkStart]) + (if fits then block[..] else [])
      ensures memory[bkStart..] == old(memory[..])[bkStart..]
      ensures memory[..] == if fits then Placed(old(memory[..]), old(bkStart), block[..]) else old(memory[..])
    {
      if block.Length > memory.Length - bkStart {
        return false;
      }
      writing := false;
      bkEnd := bkStart + block.Length;
      writing := true;
      var writerPos := bkStart;
      for i := 0 to block.Length
        invariant writerPos == bkStart + i && bkStart == old(bkStart) && bkEnd == bkStart + block.Length && writing
        invariant memory[..bkStart] == old(memory[..bkStart])
        invariant memory[bkStart..writerPos] == block[..i]
        invariant memory[writerPos..] == old(memory[..])[writerPos..]
      {
        ghost var before := memory[..];
        memory[writerPos] := block[i];
        assert memory[..writerPos] == before[..writerPos];
        assert memory[bkStart..writerPos + 1] == memory[bkStart..writerPos] + [block[i]];
        assert before[writerPos..][1..] == before[writerPos + 1..];
        writerPos := writerPos + 1;
      }
      assert memory[..writerPos] == memory[..bkStart] + memory[bkStart..writerPos];
      writing := false;
      bkStart := writerPos;
      writing := true;
      if bkEnd - bkStart != 0 {
        assert false;
      }
      return true;
    }
  }
}
