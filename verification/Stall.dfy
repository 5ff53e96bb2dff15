/** When the reader of module Reader waits for a writer that is at rest, and that it reads on
    whenever it does not. */
module Stall {
  import opened Reader

  /** The reader waits for a writer that is at rest: `wait` has cleared the flag the writer set. */
  predicate Stalled<T>(s: State<T>) {
    && s.writer.Resting?
    && (s.loop.Yielding? || (s.loop.Testing? && !s.writing))
    && s.loop.mc != s.bottom
  }

  /** The two halves of `wait` are not one step: this is the writer finishing between them. */
  predicate Overtakes<T>(s: State<T>, a: Step<T>) {
    a.WriterStep? && s.writer.Closing? && s.loop.Yielding?
  }

  /** The writer has cleared its flag and not yet set it again. */
  predicate Writing<T>(w: Writer<T>) {
    w.Flagged? || w.Extending? || w.Opened? || w.Copied? || w.Closing?
  }

  /** The reader is past `wait` for one element and not yet done with it. */
  predicate Reading(l: Loop) {
    l.Ending? || l.Starting? || l.Fetching? || l.Leaving?
  }

  /** The reader's flag is clear exactly while it reads an element. The writer's is clear while it
      writes, but for the moment between the halves of `wait`; between two writes it is set, unless
      the reader has cleared it and is about to test it again. */
  predicate FlagInv<T>(s: State<T>) {
    && (!s.reading <==> Reading(s.loop))
    && (Writing(s.writer) && !s.loop.Yielding? ==> !s.writing)
    && (s.loop.Yielding? ==> s.loop.mc != s.bottom)
    && ((s.writer.Resting? || s.writer.Positioned? || s.writer.Full?) && !s.writing ==>
          s.loop.Testing? && s.loop.mc != s.bottom)
  }

  lemma FlagKeeps<T>(s: State<T>, a: Step<T>, busy: T)
    requires Possible(s, a) && Bounds(s) && FlagInv(s)
    ensures FlagInv(Next(s, a, busy))
  {
  }

  /** The reader stalls by exactly one step, the writer's last between the halves of `wait`... */
  lemma StallsExactly<T>(s: State<T>, a: Step<T>, busy: T)
    requires Possible(s, a) && Bounds(s) && FlagInv(s) && !Stalled(s)
    ensures Stalled(Next(s, a, busy)) <==> Overtakes(s, a)
  {
  }

  /** ... and goes on by exactly one, the next write; until then it reads nothing. */
  lemma StalledUntilWrite<T>(s: State<T>, a: Step<T>, busy: T)
    requires Possible(s, a) && Bounds(s) && Stalled(s)
    ensures Stalled(Next(s, a, busy)) <==> !a.Write?
    ensures Position(Next(s, a, busy)) == Position(s) && Next(s, a, busy).buffer == s.buffer
  {
  }

  lemma {:induction false} RunFlags<T>(memory: seq<T>, busy: T, ss: seq<State<T>>, steps: seq<Step<T>>, k: nat)
    requires Run(memory, busy, ss, steps) && k < |ss|
    ensures FlagInv(ss[k])
  {
    hide Next, FlagInv, Possible;
    if k == 0 {
      assert FlagInv(ss[0]) by { BeginFlags(memory); }
    } else {
      RunFlags(memory, busy, ss, steps, k - 1);
      assert Possible(ss[k - 1], steps[k - 1]);
      FlagKeeps(ss[k - 1], steps[k - 1], busy);
    }
  }

  lemma BeginFlags<T>(memory: seq<T>)
    ensures FlagInv(Begin(memory)) && !Stalled(Begin(memory))
  {
  }

  /** Over every run, by whatever step: the reader enters upon an element exactly when it tests the
      flag while the writer is not writing and it is not stalled itself. */
  lemma EntersExactly<T>(memory: seq<T>, busy: T, ss: seq<State<T>>, steps: seq<Step<T>>, k: nat)
    requires Run(memory, busy, ss, steps) && k < |steps|
    ensures !ss[k].reading <==> Reading(ss[k].loop)
    ensures ss[k + 1].loop.Entering? && !ss[k].loop.Entering? <==>
              && steps[k].ReaderStep? && ss[k].loop.Testing? && ss[k].loop.mc != ss[k].bottom
              && !Writing(ss[k].writer) && ss[k].writing
  {
    RunFlags(memory, busy, ss, steps, k);
    assert Possible(ss[k], steps[k]) && Bounds(ss[k]) && ss[k + 1] == Next(ss[k], steps[k], busy);
  }

  /** Step i is one by which the reader stalls, and no write has begun since. */
  ghost predicate StalledSince<T>(ss: seq<State<T>>, steps: seq<Step<T>>, i: nat, k: nat)
    requires k < |ss| == |steps| + 1
  {
    i < k && Overtakes(ss[i], steps[i]) && forall j :: i < j < k ==> !steps[j].Write?
  }

  /** Over every run: the reader is stalled if and only if the writer has finished between the two
      halves of `wait` and has not begun another write since. */
  lemma {:induction false} StalledExactly<T>(memory: seq<T>, busy: T, ss: seq<State<T>>, steps: seq<Step<T>>, k: nat)
    requires Run(memory, busy, ss, steps) && k < |ss|
    ensures Stalled(ss[k]) <==> exists i :: StalledSince(ss, steps, i, k)
  {
    hide Next, FlagInv, Possible, Stalled, Overtakes;
    if k == 0 {
      BeginFlags(memory);
    } else {
      var s, a := ss[k - 1], steps[k - 1];
      StalledExactly(memory, busy, ss, steps, k - 1);
      RunFlags(memory, busy, ss, steps, k - 1);
      assert Possible(s, a) && Bounds(s) && ss[k] == Next(s, a, busy);
      assert forall i: nat :: StalledSince(ss, steps, i, k) ==> i == k - 1 || StalledSince(ss, steps, i, k - 1);
      if Stalled(s) {
        StalledUntilWrite(s, a, busy);
        var i :| StalledSince(ss, steps, i, k - 1);
        assert !a.Write? ==> StalledSince(ss, steps, i, k);
        assert Overtakes(s, a) ==> !s.writer.Resting? by { OvertakesNoRest(s, a); }
        assert s.writer.Resting? by { StalledRests(s); }
      } else {
        StallsExactly(s, a, busy);
        assert Overtakes(s, a) ==> StalledSince(ss, steps, k - 1, k);
      }
    }
  }

  lemma OvertakesNoRest<T>(s: State<T>, a: Step<T>)
    ensures Overtakes(s, a) ==> !s.writer.Resting?
  {
  }

  lemma StalledRests<T>(s: State<T>)
    ensures Stalled(s) ==> s.writer.Resting?
  {
  }

  // ----- The reader alone -----

  function ReadFor<T>(s: State<T>, n: nat, busy: T): State<T>
    decreases n
  {
    if n == 0 || !Bounds(s) then s else ReadFor(ReaderMove(s, busy), n - 1, busy)
  }

  predicate Underway<T>(s: State<T>) {
    !s.loop.Away? && !s.loop.NegativeOffset? && !s.loop.OutOfBounds?
  }

  /** Steps to the end of the read, six for an element. */
  function Remaining<T>(s: State<T>): int
    requires Underway(s)
  {
    6 * (s.loop.mc - s.bottom) +
    match s.loop
    case Testing(_) => 1
    case Entering(_) => 0
    case Ending(_) => -1
    case Starting(_, _) => -2
    case Fetching(_, _, _) => -3
    case Leaving(_) => 2
    case _ => 0
  }

  lemma {:induction false} RestingFinishes<T>(s: State<T>, busy: T)
    requires Inv(s, busy) && s.writer.Resting? && Underway(s) && s.writing && !s.loop.Yielding?
    ensures Remaining(s) > 0 && ReadFor(s, Remaining(s), busy).loop.Away?
    decreases Remaining(s)
  {
    hide Inv;
    RestingMoves(s, busy);
    var s1 := ReaderMove(s, busy);
    if Underway(s1) {
      ReaderKeeps(s, busy);
      RestingFinishes(s1, busy);
    }
    assert ReadFor(s, Remaining(s), busy) == ReadFor(s1, Remaining(s) - 1, busy);
  }

  lemma RestingMoves<T>(s: State<T>, busy: T)
    requires Inv(s, busy) && s.writer.Resting? && Underway(s) && s.writing && !s.loop.Yielding?
    ensures Bounds(s) && Remaining(s) > 0
    ensures var s1 := ReaderMove(s, busy);
            if s.loop == Testing(s.bottom) then s1.loop.Away? && Remaining(s) == 1
            else
              && s1.writer.Resting? && Underway(s1) && s1.writing && !s1.loop.Yielding?
              && Remaining(s1) == Remaining(s) - 1
  {
    hide Element, Contents;
    InBounds(s, busy);
  }

  lemma {:induction false} StalledForever<T>(s: State<T>, n: nat, busy: T)
    requires Stalled(s)
    ensures Stalled(ReadFor(s, n, busy)) && Position(ReadFor(s, n, busy)) == Position(s)
    decreases n
  {
    if n > 0 {
      StalledForever(ReaderMove(s, busy), n - 1, busy);
    }
  }

  /** Reader progress: beside a writer at rest the reader finishes its read if and only if it is not
      stalled. */
  lemma FinishesExactly<T>(memory: seq<T>, busy: T, ss: seq<State<T>>, steps: seq<Step<T>>, k: nat)
    requires Run(memory, busy, ss, steps) && k < |ss|
    requires ss[k].writer.Resting? && Underway(ss[k])
    ensures (exists n: nat :: ReadFor(ss[k], n, busy).loop.Away?) <==> !Stalled(ss[k])
  {
    hide Inv, ReadFor;
    var s := ss[k];
    RunInv(memory, busy, ss, steps, k);
    RunFlags(memory, busy, ss, steps, k);
    if Stalled(s) {
      forall n: nat
        ensures !ReadFor(s, n, busy).loop.Away?
      {
        StalledForever(s, n, busy);
      }
    } else {
      RestingFinishes(s, busy);
    }
  }

  // ----- What each thread does alone -----

  /** Once past `wait` the reader, alone, takes the element below its position: busy exactly when the
      writer's range, as it stands, has it. The writer may be anywhere in its write. */
  lemma EnteredReads<T>(s: State<T>, busy: T)
    requires Inv(s, busy) && s.loop.Entering?
    ensures var p := s.loop.mc - 1;
            && s.bottom <= p < |s.memory| && p - s.bottom < |s.buffer|
            && var s' := ReadFor(s, 5, busy);
               && s'.loop == Testing(p)
               && s'.buffer == s.buffer[p - s.bottom := Seen(s.memory, s.bkStart, s.bkEnd, p, busy)]
               && s' == s.(loop := s'.loop, buffer := s'.buffer, reading := true, dataEnd := s'.dataEnd,
                           fillerStart := s'.fillerStart)
  {
    EntersInside(s, busy);
    EnteredLoads(s, busy);
    hide Inv, ReadFor;
    var mc := s.loop.mc;
    FetchedReads(s.(reading := false, loop := Fetching(mc, s.bkEnd, s.bkStart)), busy);
  }

  lemma EnteredLoads<T>(s: State<T>, busy: T)
    requires s.loop.Entering? && Bounds(s)
    requires s.bottom < s.loop.mc <= |s.memory| && s.loop.mc <= s.bottom + |s.buffer|
    ensures ReadFor(s, 5, busy) ==
              ReadFor(s.(reading := false, loop := Fetching(s.loop.mc, s.bkEnd, s.bkStart)), 2, busy)
  {
    var mc := s.loop.mc;
    var s1 := s.(reading := false, loop := Ending(mc));
    var s2 := s1.(loop := Starting(mc, s.bkEnd));
    ReadOne(s, s1, 4, busy);
    ReadOne(s1, s2, 3, busy);
    ReadOne(s2, s1.(loop := Fetching(mc, s.bkEnd, s.bkStart)), 2, busy);
  }

  lemma FetchedReads<T>(s: State<T>, busy: T)
    requires s.loop.Fetching? && Bounds(s)
    ensures var p := s.loop.mc - 1;
            var s' := ReadFor(s, 2, busy);
            && s'.buffer == s.buffer[p - s.bottom := Seen(s.memory, s.loop.start, s.loop.end, p, busy)]
            && s' == s.(loop := Testing(p), buffer := s'.buffer, reading := true, dataEnd := s'.dataEnd,
                        fillerStart := s'.fillerStart)
  {
    var mc := s.loop.mc;
    var s1 := Fetch(s, mc, s.loop.end, s.loop.start, busy);
    ReadOne(s, s1, 1, busy);
    ReadOne(s1, s1.(reading := true, loop := Testing(mc - 1)), 0, busy);
  }

  lemma EntersInside<T>(s: State<T>, busy: T)
    requires Inv(s, busy) && s.loop.Entering?
    ensures Bounds(s) && s.bottom < s.loop.mc <= |s.memory| && s.loop.mc <= s.bottom + |s.buffer|
  {
    hide Element, Contents, Ordered;
    InBounds(s, busy);
  }

  lemma ReadOne<T>(s: State<T>, s': State<T>, n: nat, busy: T)
    requires Bounds(s) && ReaderMove(s, busy) == s'
    ensures ReadFor(s, n + 1, busy) == ReadFor(s', n, busy) && ReadFor(s', 0, busy) == s'
  {
    hide ReaderMove;
  }

  /** A try of `wait` that finds the flag clear takes two steps and leaves all as it was, so that the
      next one is made. */
  lemma FailedTry<T>(s: State<T>, busy: T)
    requires Bounds(s) && s.loop.Testing? && s.loop.mc != s.bottom && !s.writing
    ensures ReadFor(s, 2, busy) == s
  {
    var s1 := s.(writing := true, loop := Yielding(s.loop.mc));
    ReadOne(s, s1, 1, busy);
    ReadOne(s1, s, 0, busy);
  }

  lemma {:induction false} ReadForSum<T>(s: State<T>, m: nat, n: nat, busy: T)
    ensures ReadFor(s, m + n, busy) == ReadFor(ReadFor(s, m, busy), n, busy)
    decreases m
  {
    if m > 0 && Bounds(s) {
      ReadForSum(ReaderMove(s, busy), m - 1, n, busy);
    }
  }

  lemma {:induction false} ReadForKeeps<T>(s: State<T>, n: nat, busy: T)
    requires Inv(s, busy)
    ensures Inv(ReadFor(s, n, busy), busy)
    decreases n
  {
    if n > 0 {
      ReaderKeeps(s, busy);
      ReadForKeeps(ReaderMove(s, busy), n - 1, busy);
    }
  }

  /** The buffer from position `mc` on holds what a writer at rest lets be seen. */
  ghost predicate SeenFrom<T>(s: State<T>, mc: int, busy: T) {
    && s.bottom + |s.buffer| <= |s.memory|
    && forall i :: 0 <= i < |s.buffer| && mc <= s.bottom + i ==>
         s.buffer[i] == Seen(s.memory, s.bkStart, s.bkStart, s.bottom + i, busy)
  }

  lemma {:induction false} RestingReads<T>(s: State<T>, busy: T)
    requires Inv(s, busy) && s.writer.Resting? && s.writing && s.loop.Testing? && SeenFrom(s, s.loop.mc, busy)
    ensures s.bottom <= s.loop.mc
    ensures var s' := ReadFor(s, 6 * (s.loop.mc - s.bottom) + 1, busy);
            && s'.loop.Away? && s'.memory == s.memory && s'.bkStart == s.bkStart
            && s'.bottom == s.bottom && |s'.buffer| == |s.buffer| && SeenFrom(s', s.bottom, busy)
    decreases s.loop.mc
  {
    hide Inv, SeenFrom, ReadFor;
    InBounds(s, busy);
    RestsAt(s, busy);
    var mc := s.loop.mc;
    if mc == s.bottom {
      LastMove(s, busy);
    } else {
      RestingRound(s, busy);
      ReadForSum(s, 6, 6 * (mc - 1 - s.bottom) + 1, busy);
      RestingReads(ReadFor(s, 6, busy), busy);
    }
  }

  lemma LastMove<T>(s: State<T>, busy: T)
    requires Bounds(s) && s.loop == Testing(s.bottom)
    ensures ReadFor(s, 1, busy) == s.(loop := Away)
    ensures SeenFrom(s, s.bottom, busy) ==> SeenFrom(s.(loop := Away), s.bottom, busy)
  {
    assert ReadFor(s, 1, busy) == ReadFor(ReaderMove(s, busy), 0, busy);
  }

  /** One element, from test to test. */
  lemma RestingRound<T>(s: State<T>, busy: T)
    requires Inv(s, busy) && s.writer.Resting? && s.writing && s.loop.Testing? && s.loop.mc != s.bottom
    requires SeenFrom(s, s.loop.mc, busy)
    ensures s.bottom < s.loop.mc
    ensures var s' := ReadFor(s, 6, busy);
            && Inv(s', busy) && s'.writer.Resting? && s'.writing && s'.loop == Testing(s.loop.mc - 1)
            && s'.memory == s.memory && s'.bkStart == s.bkStart && s'.bottom == s.bottom
            && |s'.buffer| == |s.buffer| && SeenFrom(s', s.loop.mc - 1, busy)
  {
    hide Inv;
    InBounds(s, busy);
    RestsAt(s, busy);
    var s1 := ReaderMove(s, busy);
    assert ReadFor(s, 6, busy) == ReadFor(s1, 5, busy);
    ReaderKeeps(s, busy);
    ReadForKeeps(s, 6, busy);
    hide ReadFor;
    EnteredReads(s1, busy);
  }

  lemma RestsAt<T>(s: State<T>, busy: T)
    requires Inv(s, busy)
    ensures s.writer.Resting? ==> s.bkStart == s.bkEnd
    ensures s.loop.Testing? ==> s.bottom <= s.loop.mc
  {
    hide Element, Contents, Ordered;
  }

  /** The read asked for, beside a writer at rest after any run: it ends, and of its elements exactly
      the one at the writer's position is busy and every other is the memory's. */
  lemma RestingRead<T>(memory: seq<T>, busy: T, ss: seq<State<T>>, steps: seq<Step<T>>, k: nat, offset: nat,
                       buffer: seq<T>)
    requires Run(memory, busy, ss, steps) && k < |ss|
    requires ss[k].writer.Resting? && ss[k].loop.Away? && offset + |buffer| <= |memory|
    ensures Bounds(ss[k])
    ensures var s := ss[k];
            var s' := ReadFor(Next(s, Read(offset, buffer), busy), 6 * |buffer| + 1, busy);
            && s'.loop.Away? && s'.memory == s.memory && |s'.buffer| == |buffer| && |s.memory| == |memory|
            && forall i :: 0 <= i < |buffer| ==>
                 s'.buffer[i] == if offset + i == s.bkStart then busy else s.memory[offset + i]
  {
    var s := ss[k];
    RunInv(memory, busy, ss, steps, k);
    RunFlags(memory, busy, ss, steps, k);
    NextKeeps(s, Read(offset, buffer), busy);
    Lengths(s);
    hide Inv, ReadFor;
    RestingReads(Next(s, Read(offset, buffer), busy), busy);
  }

  function WriteFor<T>(s: State<T>, n: nat): State<T>
    decreases n
  {
    if n == 0 || !Bounds(s) then s else WriteFor(WriterMove(s), n - 1)
  }

  /** A write asked for, alone: it goes behind what is there and is committed with the flag set again,
      or the memory is full and nothing changes. */
  lemma WritesAlone<T>(s: State<T>, item: T, busy: T)
    requires Inv(s, busy) && s.writer.Resting? && !s.loop.NegativeOffset? && !s.loop.OutOfBounds?
    ensures Bounds(s)
    ensures var s1 := Next(s, Write(item), busy);
            if s.bkStart == |s.memory| then WriteFor(s1, 1) == s.(writer := Full)
            else
              && s.bkStart < |s.memory|
              && WriteFor(s1, 6) == s.(memory := s.memory[s.bkStart := item], bkStart := s.bkStart + 1,
                                       bkEnd := s.bkStart + 1, writing := true, log := s.log + [item])
  {
    InBounds(s, busy);
    assert s.bkStart == s.bkEnd && s.bkStart <= |s.memory| by { LogFits(s); }
    hide Inv, WriteFor;
    var p, s1 := s.bkStart, Next(s, Write(item), busy);
    if p == |s.memory| {
      WriteOne(s1, s.(writer := Full), 0);
    } else {
      var s2 := s.(writing := false, writer := Flagged(p, item));
      var s3 := s2.(writer := Extending(p, item, p));
      var s4 := s2.(bkEnd := p + 1, writer := Opened(p, item));
      var s5 := s4.(memory := s.memory[p := item], writer := Copied(p, item));
      var s6 := s5.(bkStart := p + 1, log := s.log + [item], writer := Closing);
      WriteOne(s1, s2, 5);
      WriteOne(s2, s3, 4);
      WriteOne(s3, s4, 3);
      WriteOne(s4, s5, 2);
      WriteOne(s5, s6, 1);
      WriteOne(s6, s6.(writing := true, writer := Resting), 0);
    }
  }

  lemma WriteOne<T>(s: State<T>, s': State<T>, n: nat)
    requires Bounds(s) && WriterMove(s) == s'
    ensures WriteFor(s, n + 1) == WriteFor(s', n) && WriteFor(s', 0) == s'
  {
    hide WriterMove;
  }

  lemma LogFits<T>(s: State<T>)
    requires WriterInv(s)
    ensures s.bkStart <= |s.memory| && (s.writer.Resting? ==> s.bkStart == s.bkEnd)
  {
  }

  // ----- It happens -----

  lemma Extend(ss: seq<State<int>>, steps: seq<Step<int>>, a: Step<int>, s': State<int>)
    returns (ss': seq<State<int>>, steps': seq<Step<int>>)
    requires Run([0, 0], 9, ss, steps)
    requires Possible(ss[|steps|], a) && Bounds(ss[|steps|]) && Next(ss[|steps|], a, 9) == s'
    ensures Run([0, 0], 9, ss', steps') && |steps'| == |steps| + 1 && ss'[|steps'|] == s'
  {
    hide Possible, Bounds, Next, Begin;
    ss', steps' := ss + [s'], steps + [a];
  }

  /** Two elements, one write and one read: after nine steps the reader is stalled. */
  lemma ReaderStalls() returns (ss: seq<State<int>>, steps: seq<Step<int>>)
    ensures Run([0, 0], 9, ss, steps) && |steps| == 9
    ensures Stalled(ss[9])
  {
    var s := Begin([0, 0]);
    ss, steps := [s], [];
    assert Run([0, 0], 9, ss, steps);
    hide Run;
    ss, steps := Extend(ss, steps, Write(7), s.(writer := Positioned(0, 7)));
    s := s.(writer := Flagged(0, 7), writing := false);
    ss, steps := Extend(ss, steps, WriterStep, s);
    s := s.(loop := Testing(2), buffer := [5, 5], dataEnd := 2, fillerStart := 2);
    ss, steps := Extend(ss, steps, Read(0, [5, 5]), s);
    ss, steps := Extend(ss, steps, WriterStep, s.(writer := Extending(0, 7, 0)));
    s := s.(writer := Opened(0, 7), bkEnd := 1);
    ss, steps := Extend(ss, steps, WriterStep, s);
    s := s.(writer := Copied(0, 7), memory := [7, 0]);
    ss, steps := Extend(ss, steps, WriterStep, s);
    s := s.(writer := Closing, bkStart := 1, log := [7]);
    ss, steps := Extend(ss, steps, WriterStep, s);
    s := s.(writing := true, loop := Yielding(2));
    ss, steps := Extend(ss, steps, ReaderStep, s);
    s := s.(writer := Resting);
    ss, steps := Extend(ss, steps, WriterStep, s);
  }
}
