/** The single-producer ring buffer. `WriteInterleaved` and `RingBuffer::event_loop` run in two
    threads; every load, store, test_and_set, clear and cell access is one step. Under every
    interleaving the ring is a bounded queue. */
module Ring {

  // ----- Positions -----

  /** The cell of position k, counting from the first cell on and wrapping around. */
  function Index(k: nat, n: nat): (i: nat)
    requires n > 0
    ensures i < n
  {
    k % n
  }

  /** The increment of both sides. */
  function Advance(i: nat, n: nat): nat {
    if i + 1 == n then 0 else i + 1
  }

  lemma DivisionIs(k: int, n: nat, q: int, i: nat)
    requires i < n && k == n * q + i
    ensures k % n == i
  {
    var q', i' := k / n, k % n;
    assert k == n * q' + i';
    if q' > q {
      assert n * q' >= n * (q + 1) by { Times(n, q', q + 1); }
    } else if q' < q {
      assert n * q >= n * (q' + 1) by { Times(n, q, q' + 1); }
    }
  }

  lemma Times(n: nat, a: int, b: int)
    requires a >= b
    ensures n * a >= n * b
  {
    assert n * a == n * b + n * (a - b);
  }

  lemma AdvanceIndex(k: nat, n: nat)
    requires n > 0
    ensures Index(k + 1, n) == Advance(Index(k, n), n)
  {
    var q, i := k / n, k % n;
    if i + 1 == n {
      DivisionIs(k + 1, n, q + 1, 0);
    } else {
      DivisionIs(k + 1, n, q, i + 1);
    }
  }

  /** Positions less than a lap apart have the same cell only if they are the same. */
  lemma SameIndex(a: nat, b: nat, n: nat)
    requires n > 0 && a <= b < a + n && Index(a, n) == Index(b, n)
    ensures a == b
  {
    if b / n > a / n {
      Times(n, b / n, a / n + 1);
    } else if b / n < a / n {
      Times(n, a / n, b / n + 1);
    }
  }

  /** What the producer can compute from the two indices: how many items are unread. */
  function Distance(current: nat, threadCurrent: nat, n: nat): nat
    requires n > 0
  {
    (current - threadCurrent - 1) % n
  }

  lemma DistanceIs(w: nat, r: nat, n: nat)
    requires n > 0 && r <= w < r + n
    ensures Distance(Index(w + 1, n), Index(r, n), n) == w - r
  {
    var a, b := (w + 1) / n, r / n;
    var i, j := (w + 1) % n, r % n;
    assert n * (b - a) == n * b - n * a;
    DivisionIs(i - j - 1, n, b - a, w - r);
  }

  // ----- The two threads -----

  /** `WriteInterleaved`, by what it does next. */
  datatype Producer<T> =
    | Ready
    | Loaded(cur: nat, item: T)
    | Cleared(cur: nat, item: T)
    | Copied(cur: nat, item: T)
    | Published
    | Failing(cur: nat, item: T)
    | Aborted

  /** `event_loop` and `read_hook`, by what it does next. */
  datatype Consumer =
    | Waiting
    | Woken
    | Started(t: nat)
    | Looping(t: nat, c: nat)
    | Transferring(t: nat, c: nat)
    | Storing(t: nat, c: nat)

  /** `written`, `transferred` and `snapshot` record, for the proofs only, the items whose index has
      been stored, the items passed on, and how many items the consumer's last load of `current`
      covered. `notify` is true when the flag is set. */
  datatype State<T> = State(
    cells: seq<T>,
    current: nat,
    threadCurrent: nat,
    notify: bool,
    producer: Producer<T>,
    consumer: Consumer,
    written: seq<T>,
    transferred: seq<T>,
    snapshot: nat)

  datatype Step<T> = Write(item: T) | ProducerStep | ConsumerStep

  /** The bus constructor refuses rings of fewer than two cells. */
  function Start<T>(cells: seq<T>): State<T> {
    State(cells, 1, 0, true, Ready, Waiting, [], [], 0)
  }

  predicate Bounds<T>(s: State<T>) {
    && |s.cells| >= 2
    && (s.producer.Loaded? || s.producer.Cleared? || s.producer.Copied? || s.producer.Failing? ==>
          s.producer.cur < |s.cells|)
    && (s.consumer.Transferring? ==> s.consumer.t < |s.cells|)
  }

  function Produce<T>(s: State<T>): State<T>
    requires Bounds(s)
  {
    match s.producer
    case Loaded(cur, item) =>
      s.(producer := if cur != s.threadCurrent then Cleared(cur, item) else Failing(cur, item))
    case Cleared(cur, item) => s.(cells := s.cells[cur := item], producer := Copied(cur, item))
    case Copied(cur, item) =>
      s.(current := Advance(cur, |s.cells|), written := s.written + [item], producer := Published)
    case Published => s.(notify := false, producer := Ready)
    case Failing(cur, item) => s.(cells := s.cells[cur := item], producer := Aborted)
    case _ => s
  }

  function Consume<T>(s: State<T>): State<T>
    requires Bounds(s)
  {
    match s.consumer
    case Waiting => s.(notify := true, consumer := if s.notify then Waiting else Woken)
    case Woken => s.(consumer := Started(s.threadCurrent))
    case Started(t) => s.(consumer := Looping(t, s.current), snapshot := |s.written|)
    case Looping(t, c) =>
      var t' := Advance(t, |s.cells|);
      s.(consumer := if t' != c then Transferring(t', c) else Waiting)
    case Transferring(t, c) => s.(transferred := s.transferred + [s.cells[t]], consumer := Storing(t, c))
    case Storing(t, c) => s.(threadCurrent := t, consumer := Looping(t, c))
  }

  /** An abort ends the process, so nothing follows `Aborted`. */
  predicate Possible<T>(s: State<T>, a: Step<T>) {
    !s.producer.Aborted? && (a.Write? ==> s.producer.Ready?)
  }

  function Next<T>(s: State<T>, a: Step<T>): State<T>
    requires Bounds(s)
  {
    match a
    case Write(item) => s.(producer := Loaded(s.current, item))
    case ProducerStep => Produce(s)
    case ConsumerStep => Consume(s)
  }

  // ----- The invariant -----

  /** Items whose cells the consumer has given back by storing its index. */
  function Released<T>(s: State<T>): int {
    |s.transferred| - (if s.consumer.Storing? then 1 else 0)
  }

  /** Unread items are in their cells. */
  ghost predicate Kept<T>(cells: seq<T>, written: seq<T>, released: int) {
    |cells| > 0 && forall i :: 0 <= released <= i < |written| ==> cells[Index(i + 1, |cells|)] == written[i]
  }

  ghost predicate ProducerInv<T>(p: Producer<T>, cells: seq<T>, current: nat, unread: int) {
    match p
    case Loaded(cur, _) => cur == current
    case Failing(cur, _) => cur == current
    case Cleared(cur, _) => cur == current && unread + 2 <= |cells|
    case Copied(cur, item) => cur == current && unread + 2 <= |cells| && cur < |cells| && cells[cur] == item
    case _ => true
  }

  predicate ConsumerInv(c: Consumer, n: nat, threadCurrent: nat, released: nat, snapshot: nat)
    requires n > 0
  {
    match c
    case Waiting => released == snapshot
    case Woken => released == snapshot
    case Started(t) => released == snapshot && t == threadCurrent
    case Looping(t, c) => t == threadCurrent && c == Index(snapshot + 1, n)
    case Transferring(t, c) => released < snapshot && t == Index(released + 1, n) && c == Index(snapshot + 1, n)
    case Storing(t, c) => released < snapshot && t == Index(released + 1, n) && c == Index(snapshot + 1, n)
  }

  ghost predicate Inv<T>(s: State<T>) {
    var n, w, r := |s.cells|, |s.written|, Released(s);
    && n >= 2
    && 0 <= r <= s.snapshot <= w < r + n
    && s.current == Index(w + 1, n) && s.threadCurrent == Index(r, n)
    && |s.transferred| <= w && s.transferred == s.written[..|s.transferred|]
    && Kept(s.cells, s.written, r)
    && ProducerInv(s.producer, s.cells, s.current, w - r)
    && ConsumerInv(s.consumer, n, s.threadCurrent, r, s.snapshot)
    && (s.snapshot < w ==> !s.notify || s.producer.Published? || s.consumer.Woken? || s.consumer.Started?)
  }

  lemma StartInv<T>(cells: seq<T>)
    requires |cells| >= 2
    ensures Inv(Start(cells))
  {
  }

  /** The producer's cell is no unread one, even when it fails. */
  lemma WriteKeepsUnread<T>(cells: seq<T>, written: seq<T>, released: nat, item: T)
    requires Kept(cells, written, released) && released <= |written| < released + |cells|
    ensures Kept(cells[Index(|written| + 1, |cells|) := item], written, released)
  {
    var n, w := |cells|, |written|;
    forall i | released <= i < w
      ensures cells[Index(w + 1, n) := item][Index(i + 1, n)] == written[i]
    {
      if Index(i + 1, n) == Index(w + 1, n) {
        SameIndex(i + 1, w + 1, n);
      }
    }
  }

  lemma ProduceKeeps<T>(s: State<T>)
    requires Inv(s)
    ensures Bounds(s) && Inv(Produce(s))
  {
    hide Index, Kept;
    var n, w, r := |s.cells|, |s.written|, Released(s);
    match s.producer
    case Loaded(cur, _) =>
      if w + 1 == r + n {
        Lap(r, n);
      }
    case Cleared(_, item) => WriteKeepsUnread(s.cells, s.written, r, item);
    case Failing(_, item) => WriteKeepsUnread(s.cells, s.written, r, item);
    case Copied(cur, item) =>
      AdvanceIndex(w + 1, n);
      PublishKeeps(s.cells, s.written, r, item);
    case _ =>
  }

  lemma Lap(r: nat, n: nat)
    requires n > 0
    ensures Index(r + n, n) == Index(r, n)
  {
    DivisionIs(r + n, n, r / n + 1, r % n);
  }

  lemma PublishKeeps<T>(cells: seq<T>, written: seq<T>, released: nat, item: T)
    requires Kept(cells, written, released) && cells[Index(|written| + 1, |cells|)] == item
    ensures Kept(cells, written + [item], released)
  {
  }

  lemma KeptFrom<T>(cells: seq<T>, written: seq<T>, released: nat)
    requires Kept(cells, written, released)
    ensures Kept(cells, written, released + 1)
    ensures released < |written| ==> cells[Index(released + 1, |cells|)] == written[released]
  {
  }

  lemma ConsumeKeeps<T>(s: State<T>)
    requires Inv(s)
    ensures Bounds(s) && Inv(Consume(s))
  {
    hide Index, Kept;
    var n, w, r := |s.cells|, |s.written|, Released(s);
    match s.consumer
    case Looping(t, c) =>
      AdvanceIndex(r, n);
      if Index(r + 1, n) == Index(s.snapshot + 1, n) {
        SameIndex(r + 1, s.snapshot + 1, n);
      }
    case Transferring(t, c) =>
      KeptFrom(s.cells, s.written, r);
      assert s.written[..r] + [s.written[r]] == s.written[..r + 1];
    case Storing(t, c) => KeptFrom(s.cells, s.written, r);
    case _ =>
  }

  lemma NextKeeps<T>(s: State<T>, a: Step<T>)
    requires Inv(s) && Possible(s, a)
    ensures Bounds(s) && Inv(Next(s, a))
  {
    hide Index, Kept, Produce, Consume;
    match a
    case Write(_) =>
    case ProducerStep => ProduceKeeps(s);
    case ConsumerStep => ConsumeKeeps(s);
  }

  /** Every interleaving. */
  ghost predicate Run<T>(cells: seq<T>, ss: seq<State<T>>, steps: seq<Step<T>>) {
    && |cells| >= 2
    && |ss| == |steps| + 1
    && ss[0] == Start(cells)
    && forall i :: 0 <= i < |steps| ==> Possible(ss[i], steps[i]) && Bounds(ss[i]) && ss[i + 1] == Next(ss[i], steps[i])
  }

  lemma {:induction false} RunInv<T>(cells: seq<T>, ss: seq<State<T>>, steps: seq<Step<T>>, k: nat)
    requires Run(cells, ss, steps) && k < |ss|
    ensures Inv(ss[k]) && |ss[k].cells| == |cells|
  {
    hide Inv, Possible;
    if k == 0 {
      StartInv(cells);
    } else {
      RunInv(cells, ss, steps, k - 1);
      assert Possible(ss[k - 1], steps[k - 1]);
      NextKeeps(ss[k - 1], steps[k - 1]);
    }
  }

  /** The items the producer was given, in order. */
  function Writes<T>(steps: seq<Step<T>>): seq<T> {
    if steps == [] then []
    else
      var earlier, a := Writes(steps[..|steps| - 1]), steps[|steps| - 1];
      if a.Write? then earlier + [a.item] else earlier
  }

  /** The item given to the producer whose index has not been stored. */
  function Pending<T>(p: Producer<T>): seq<T> {
    match p
    case Loaded(_, item) => [item]
    case Cleared(_, item) => [item]
    case Copied(_, item) => [item]
    case Failing(_, item) => [item]
    case _ => []
  }

  lemma PendingStep<T>(s: State<T>, a: Step<T>)
    requires Bounds(s) && Possible(s, a)
    ensures var s', given := Next(s, a), if a.Write? then [a.item] else [];
            && !s.producer.Aborted?
            && (if s'.producer.Aborted? then s.producer.Failing? && |given| == 0 && s'.written == s.written
                else s'.written + Pending(s'.producer) == s.written + Pending(s.producer) + given)
  {
  }

  /** Over every run the items published are those the producer was given, in order, but for the last
      one exactly while it is being written or if the ring had no room for it. */
  lemma {:induction false} PublishedAsGiven<T>(cells: seq<T>, ss: seq<State<T>>, steps: seq<Step<T>>, k: nat)
    requires Run(cells, ss, steps) && k < |ss|
    ensures var s, items := ss[k], Writes(steps[..k]);
            if s.producer.Aborted? then |items| == |s.written| + 1 && s.written == items[..|s.written|]
            else items == s.written + Pending(s.producer)
  {
    hide Possible, Next, Bounds, Pending;
    if k == 0 {
      assert Pending(ss[0].producer) == [] by { NothingPending(ss[0].producer); }
    } else {
      PublishedAsGiven(cells, ss, steps, k - 1);
      assert Possible(ss[k - 1], steps[k - 1]) && Bounds(ss[k - 1]) && ss[k] == Next(ss[k - 1], steps[k - 1]);
      assert steps[..k][..k - 1] == steps[..k - 1];
      PendingStep(ss[k - 1], steps[k - 1]);
      NothingPending(ss[k - 1].producer);
    }
  }

  lemma NothingPending<T>(p: Producer<T>)
    ensures |Pending(p)| == 0 <==> p.Ready? || p.Published? || p.Aborted?
    ensures |Pending(p)| <= 1
  {
  }

  /** How often the consumer has taken the flag, and how often the producer has cleared it. */
  function Wakes<T>(ss: seq<State<T>>, k: nat): nat
    requires k < |ss|
  {
    if k == 0 then 0
    else Wakes(ss, k - 1) + if !ss[k - 1].consumer.Woken? && ss[k].consumer.Woken? then 1 else 0
  }

  function Calls<T>(ss: seq<State<T>>, steps: seq<Step<T>>, k: nat): nat
    requires k <= |steps| <= |ss|
  {
    if k == 0 then 0
    else Calls(ss, steps, k - 1) + if steps[k - 1].ProducerStep? && ss[k - 1].producer.Published? then 1 else 0
  }

  /** No wakeup without a write: over every run the consumer has woken no more often than the producer
      has called it, and less often while a call is unanswered. */
  lemma {:induction false} WakesOncePerCall<T>(cells: seq<T>, ss: seq<State<T>>, steps: seq<Step<T>>, k: nat)
    requires Run(cells, ss, steps) && k <= |steps|
    ensures Wakes(ss, k) + (if ss[k].notify then 0 else 1) <= Calls(ss, steps, k)
  {
    hide Bounds;
    if k > 0 {
      WakesOncePerCall(cells, ss, steps, k - 1);
      assert Possible(ss[k - 1], steps[k - 1]) && Bounds(ss[k - 1]);
    }
  }

  // ----- A bounded queue -----

  /** Items published and not yet transferred. */
  function Queue<T>(s: State<T>): seq<T>
    requires |s.transferred| <= |s.written|
  {
    s.written[|s.transferred|..]
  }

  /** Refinement: storing `current` enqueues the item, `transfer` dequeues the oldest one, and no
      other step changes the queue, which never holds more than all cells but one. */
  lemma Refines<T>(s: State<T>, a: Step<T>)
    requires Inv(s) && Possible(s, a)
    ensures Bounds(s) && Inv(Next(s, a))
    ensures var q, s' := Queue(s), Next(s, a);
            var q' := Queue(s');
            && |q| < |s.cells| && |q'| < |s.cells|
            && (if a.ProducerStep? && s.producer.Copied? then
                  q' == q + [s.producer.item] && s'.transferred == s.transferred
                else if a.ConsumerStep? && s.consumer.Transferring? then
                  q != [] && q' == q[1..] && s'.transferred == s.transferred + [q[0]]
                else q' == q && s'.transferred == s.transferred)
  {
    hide Index, Kept;
    NextKeeps(s, a);
    if a.ConsumerStep? && s.consumer.Transferring? {
      KeptFrom(s.cells, s.written, Released(s));
    }
  }

  /** Over every run the items transferred are a prefix, in order, of the items written: nothing is
      lost, repeated or overwritten. */
  lemma TransferredInOrder<T>(cells: seq<T>, ss: seq<State<T>>, steps: seq<Step<T>>, k: nat)
    requires Run(cells, ss, steps) && k < |ss|
    ensures var s := ss[k];
            && |s.transferred| <= |s.written| < |s.transferred| + |cells|
            && s.transferred == s.written[..|s.transferred|]
            && Distance(s.current, s.threadCurrent, |cells|) == |s.written| - Released(s)
  {
    hide Index, Kept, Distance;
    RunInv(cells, ss, steps, k);
    DistanceIs(|ss[k].written|, Released(ss[k]), |cells|);
  }

  /** The overrun branch is taken exactly when all cells but one are unread. */
  lemma OverrunExactly<T>(s: State<T>)
    requires Inv(s) && s.producer.Loaded?
    ensures Bounds(s)
    ensures Produce(s).producer.Failing? <==> |s.written| - Released(s) == |s.cells| - 1
    ensures Produce(s).producer.Failing? <==> Distance(s.current, s.threadCurrent, |s.cells|) == |s.cells| - 1
  {
    hide Index, Kept, Distance;
    var n, w, r := |s.cells|, |s.written|, Released(s);
    DistanceIs(w, r, n);
    Lap(r, n);
    if Index(w + 1, n) == Index(r, n) && w + 1 < r + n {
      if w + 1 > r {
        SameIndex(r, w + 1, n);
      }
    }
  }

  /** No lost wakeup: while items are unread beyond what the consumer has seen of `current`, the flag
      is clear or the producer is about to clear it, unless the consumer has already taken it and is
      about to look again. An idle consumer has seen nothing it has not transferred. */
  lemma NoLostWakeup<T>(s: State<T>)
    requires Inv(s) && s.snapshot < |s.written|
    ensures !s.notify || s.producer.Published? || s.consumer.Woken? || s.consumer.Started?
    ensures s.consumer.Waiting? ==> |s.transferred| == s.snapshot
  {
    hide Index, Kept;
  }

  // ----- The consumer while the producer goes on -----

  /** Consumer steps until the first `goal` items have been transferred, not counting looks at a flag
      that is set. */
  function Debt<T>(s: State<T>, goal: nat): int {
    var left := 3 * (goal - |s.transferred|);
    if left <= 0 then 0
    else
      var again := if s.snapshot < goal then 4 else 0;
      match s.consumer
      case Waiting => left + 2
      case Woken => left + 1
      case Started(_) => left
      case Looping(_, _) => left - 1 + again
      case Transferring(_, _) => left - 2 + again
      case Storing(_, _) => left + again
  }

  /** A look at a flag that is set. */
  predicate Idles<T>(s: State<T>, a: Step<T>) {
    a.ConsumerStep? && s.consumer.Waiting? && s.notify
  }

  /** The debt is paid exactly when the items are transferred; every step of the consumer pays some of
      it, whatever the producer does in between, but for looks at a set flag; and those are made only
      while the producer's next step clears it. */
  lemma DebtFalls<T>(s: State<T>, a: Step<T>, goal: nat)
    requires Inv(s) && Possible(s, a) && goal <= |s.written|
    ensures Bounds(s) && 0 <= Debt(s, goal)
    ensures Debt(s, goal) == 0 <==> goal <= |s.transferred|
    ensures goal <= |Next(s, a).written|
    ensures Debt(Next(s, a), goal) ==
              Debt(s, goal) - (if a.ConsumerStep? && !Idles(s, a) && Debt(s, goal) > 0 then 1 else 0)
    ensures Idles(s, a) && Debt(s, goal) > 0 ==> s.producer.Published?
  {
    hide Index, Kept;
    NextKeeps(s, a);
    if a.ConsumerStep? && s.consumer.Looping? {
      AdvanceIndex(Released(s), |s.cells|);
      if Index(Released(s) + 1, |s.cells|) == Index(s.snapshot + 1, |s.cells|) {
        SameIndex(Released(s) + 1, s.snapshot + 1, |s.cells|);
      }
    }
  }

  /** Consumer steps between i and k other than looks at a set flag. */
  function Useful<T>(ss: seq<State<T>>, steps: seq<Step<T>>, i: nat, k: nat): nat
    requires i <= k <= |steps| <= |ss|
    decreases k
  {
    if i == k then 0
    else
      Useful(ss, steps, i, k - 1) +
      if steps[k - 1].ConsumerStep? && !Idles(ss[k - 1], steps[k - 1]) then 1 else 0
  }

  lemma {:induction false} DebtOverRun<T>(cells: seq<T>, ss: seq<State<T>>, steps: seq<Step<T>>, i: nat, k: nat)
    requires Run(cells, ss, steps) && i <= k <= |steps|
    ensures var goal := |ss[i].written|;
            && goal <= |ss[k].written| && ss[k].written[..goal] == ss[i].written
            && 0 <= Debt(ss[k], goal)
            && (Debt(ss[k], goal) > 0 ==> Debt(ss[k], goal) + Useful(ss, steps, i, k) == Debt(ss[i], goal))
            && (Debt(ss[k], goal) == 0 ==> Useful(ss, steps, i, k) >= Debt(ss[i], goal) >= 0)
    decreases k
  {
    hide Inv, Debt, Next, Idles, Possible;
    var goal := |ss[i].written|;
    if i == k {
      RunInv(cells, ss, steps, i);
      DebtIsNatural(ss[i], goal);
      assert ss[k].written[..goal] == ss[i].written;
    } else {
      DebtOverRun(cells, ss, steps, i, k - 1);
      RunInv(cells, ss, steps, k - 1);
      assert Possible(ss[k - 1], steps[k - 1]);
      DebtFalls(ss[k - 1], steps[k - 1], goal);
      WrittenGrows(ss[k - 1], steps[k - 1]);
      assert ss[k].written[..|ss[k - 1].written|][..goal] == ss[k].written[..goal];
    }
  }

  lemma DebtIsNatural<T>(s: State<T>, goal: nat)
    requires Inv(s) && goal <= |s.written|
    ensures 0 <= Debt(s, goal)
  {
    hide Index, Kept;
  }

  lemma WrittenGrows<T>(s: State<T>, a: Step<T>)
    requires Bounds(s)
    ensures |s.written| <= |Next(s, a).written| && Next(s, a).written[..|s.written|] == s.written
  {
  }

  /** Progress under every interleaving: once the consumer has made three steps for each item that was
      unread at step i, and four more, all that had been written by then has been transferred, in
      order, whatever the producer has done meanwhile. */
  lemma TransferredInTime<T>(cells: seq<T>, ss: seq<State<T>>, steps: seq<Step<T>>, i: nat, k: nat)
    requires Run(cells, ss, steps) && i <= k <= |steps|
    requires Useful(ss, steps, i, k) >= 3 * (|ss[i].written| - |ss[i].transferred|) + 4
    ensures |ss[i].written| <= |ss[k].transferred|
    ensures ss[k].transferred[..|ss[i].written|] == ss[i].written
  {
    hide Inv, Debt, Next, Idles;
    var goal := |ss[i].written|;
    DebtOverRun(cells, ss, steps, i, k);
    RunInv(cells, ss, steps, i);
    RunInv(cells, ss, steps, k);
    DebtAt(ss[i], goal);
    DebtAt(ss[k], goal);
    var t := ss[k];
    assert t.transferred == t.written[..|t.transferred|] by { InOrder(t); }
    assert t.written[..|t.transferred|][..goal] == t.written[..goal];
  }

  lemma DebtAt<T>(s: State<T>, goal: nat)
    requires Inv(s) && goal <= |s.written|
    ensures Debt(s, goal) == 0 <==> goal <= |s.transferred|
    ensures |s.transferred| <= |s.written|
    ensures Debt(s, goal) <= 3 * (|s.written| - |s.transferred|) + 4
  {
    hide Index, Kept;
  }

  lemma InOrder<T>(s: State<T>)
    requires Inv(s)
    ensures |s.transferred| <= |s.written| && s.transferred == s.written[..|s.transferred|]
  {
    hide Index, Kept;
  }

  // ----- The woken consumer -----

  function ConsumeFor<T>(s: State<T>, steps: nat): State<T>
    decreases steps
  {
    if steps == 0 || !Bounds(s) then s else ConsumeFor(Consume(s), steps - 1)
  }

  /** Consumer steps until it waits again, once it has seen `current` for the last time. */
  function Remaining<T>(s: State<T>): int {
    var left := s.snapshot - |s.transferred|;
    match s.consumer
    case Looping(_, _) => 3 * left + 1
    case Transferring(_, _) => 3 * left
    case Storing(_, _) => 3 * left + 2
    case _ => 0
  }

  lemma {:induction false} LoopDrains<T>(s: State<T>)
    requires Inv(s) && (s.consumer.Looping? || s.consumer.Transferring? || s.consumer.Storing?)
    ensures Remaining(s) >= 0
    ensures var s' := ConsumeFor(s, Remaining(s));
            && s'.consumer.Waiting? && s'.written == s.written && s'.producer == s.producer
            && s'.transferred == s.written[..s.snapshot]
    decreases Remaining(s)
  {
    hide Index, Kept, Inv;
    ConsumeKeeps(s);
    var s1 := Consume(s);
    LoopStep(s);
    if !s1.consumer.Waiting? {
      LoopDrains(s1);
    }
    assert ConsumeFor(s, Remaining(s)) == ConsumeFor(s1, Remaining(s) - 1);
  }

  lemma LoopStep<T>(s: State<T>)
    requires Inv(s) && (s.consumer.Looping? || s.consumer.Transferring? || s.consumer.Storing?)
    ensures Bounds(s)
    ensures var s1 := Consume(s);
            && s1.written == s.written && s1.producer == s.producer && s1.snapshot == s.snapshot
            && Remaining(s) > 0
            && (if s1.consumer.Waiting? then Remaining(s) == 1 && s1.transferred == s.written[..s.snapshot]
                else
                  && (s1.consumer.Looping? || s1.consumer.Transferring? || s1.consumer.Storing?)
                  && Remaining(s1) == Remaining(s) - 1)
  {
    hide Index, Kept;
    ConsumeKeeps(s);
    var n, r := |s.cells|, Released(s);
    if s.consumer.Looping? {
      AdvanceIndex(r, n);
      if Index(r + 1, n) == Index(s.snapshot + 1, n) {
        SameIndex(r + 1, s.snapshot + 1, n);
      }
    }
  }

  /** Woken, the consumer passes on everything written so far and waits again. */
  lemma WakingDrains<T>(s: State<T>)
    requires Inv(s) && s.consumer.Waiting? && !s.notify
    ensures var s' := ConsumeFor(s, 4 + 3 * (|s.written| - |s.transferred|));
            s'.consumer.Waiting? && s'.written == s.written && s'.transferred == s.written
  {
    hide Index, Kept;
    ConsumeKeeps(s);
    var s1 := Consume(s);
    ConsumeKeeps(s1);
    var s2 := Consume(s1);
    ConsumeKeeps(s2);
    var s3 := Consume(s2);
    var k := 3 * (|s.written| - |s.transferred|) + 1;
    assert ConsumeFor(s, 3 + k) == ConsumeFor(s1, 2 + k) == ConsumeFor(s2, 1 + k) == ConsumeFor(s3, k);
    LoopDrains(s3);
    assert s.written[..|s.written|] == s.written;
  }

  /** One round of the loop of `read_hook`. */
  lemma OneItem<T>(s: State<T>, t: nat, c: nat)
    requires Inv(s) && s.consumer == Looping(t, c)
    ensures Bounds(s) && Inv(Consume(s)) && Remaining(s) > 0
    ensures var t' := Advance(t, |s.cells|);
            if t' == c then Consume(s) == s.(consumer := Waiting)
            else
              && t' < |s.cells| && Bounds(Consume(s)) && Bounds(Consume(Consume(s)))
              && var s3 := Consume(Consume(Consume(s)));
                 && s3 == s.(transferred := s.transferred + [s.cells[t']], threadCurrent := t',
                             consumer := Looping(t', c))
                 && Inv(s3) && Remaining(s3) < Remaining(s)
  {
    hide Index, Kept;
    ConsumeKeeps(s);
    LoopStep(s);
    if Advance(t, |s.cells|) != c {
      ConsumeKeeps(Consume(s));
      ConsumeKeeps(Consume(Consume(s)));
    }
  }

  lemma WaitsAtSnapshot<T>(s: State<T>)
    requires Inv(s) && s.consumer.Waiting?
    ensures s.snapshot == |s.written| ==> s.transferred == s.written
    ensures |s.transferred| == s.snapshot <= |s.written| && s.threadCurrent == Index(s.snapshot, |s.cells|)
  {
  }

  function ProduceFor<T>(s: State<T>, steps: nat): State<T>
    decreases steps
  {
    if steps == 0 || !Bounds(s) then s else ProduceFor(Produce(s), steps - 1)
  }

  lemma TwoSteps<T>(s: State<T>)
    requires Bounds(s) && Bounds(Produce(s))
    ensures ProduceFor(s, 2) == Produce(Produce(s))
  {
    hide Produce, Bounds;
    assert ProduceFor(s, 2) == ProduceFor(Produce(s), 1) == ProduceFor(Produce(Produce(s)), 0);
  }

  lemma FourSteps<T>(s: State<T>)
    requires Bounds(s) && Bounds(Produce(s)) && Bounds(Produce(Produce(s))) && Bounds(Produce(Produce(Produce(s))))
    ensures ProduceFor(s, 4) == Produce(Produce(Produce(Produce(s))))
  {
    hide Produce, Bounds;
    TwoSteps(Produce(Produce(s)));
    assert ProduceFor(s, 4) == ProduceFor(Produce(s), 3) == ProduceFor(Produce(Produce(s)), 2);
  }

  // ----- The ring as an object, each call uninterrupted -----

  class RingBuffer<T> {
    const cells: array<T>
    var current: nat
    var threadCurrent: nat
    var notify: bool
    ghost var written: seq<T>
    ghost var transferred: seq<T>

    ghost function View(): State<T>
      reads this, cells
    {
      State(cells[..], current, threadCurrent, notify, Ready, Waiting, written, transferred, |transferred|)
    }

    ghost predicate Valid()
      reads this, cells
    {
      Inv(View())
    }

    /** The bus constructor's check is its caller's duty here. */
    constructor (storage: array<T>)
      requires storage.Length >= 2
      ensures Valid() && cells == storage && written == [] && transferred == []
    {
      cells := storage;
      current, threadCurrent, notify := 1, 0, true;
      written, transferred := [], [];
    }

    /** `WriteInterleaved`: the steps of the producer without a break. False where the source reports
        the overrun and aborts, having overwritten the cell it was not to reach. */
    method WriteInterleaved(item: T) returns (ok: bool)
      requires Valid()
      modifies this, cells
      ensures ok <==> |old(Queue(View()))| < cells.Length - 1
      ensures ok ==>
                && Valid() && !notify
                && written == old(written) + [item] && transferred == old(transferred)
                && Queue(View()) == old(Queue(View())) + [item]
                && View() == ProduceFor(old(Next(View(), Write(item))), 4)
      ensures !ok ==>
                && View() == old(View()).(cells := old(cells[..])[old(current) := item])
                && View().(producer := Aborted) == ProduceFor(old(Next(View(), Write(item))), 2)
    {
      hide Index, Kept;
      ghost var s0 := View();
      ghost var s1 := Next(s0, Write(item));
      NextKeeps(s0, Write(item));
      OverrunExactly(s1);
      ProduceKeeps(s1);
      var cur := current;
      ok := cur != threadCurrent;
      cells[cur] := item;
      ghost var s2 := Produce(s1);
      ProduceKeeps(s2);
      assert Produce(s2).cells == cells[..];
      if ok {
        ProduceKeeps(Produce(s2));
        current := Advance(cur, cells.Length);
        written := written + [item];
        notify := false;
        assert View() == Produce(Produce(Produce(s2)));
        ProduceKeeps(Produce(Produce(s2)));
        FourSteps(s1);
      } else {
        TwoSteps(s1);
      }
    }

    /** The notify flag has been taken. */
    ghost predicate Awake()
      reads this, cells
    {
      Inv(View().(consumer := Woken))
    }

    /** `read_hook`: passes on everything written so far. */
    method ReadHook() returns (items: seq<T>)
      requires Awake()
      modifies this
      ensures Valid() && notify == old(notify) && written == old(written)
      ensures items == old(Queue(View())) && transferred == old(transferred) + items && Queue(View()) == []
    {
      hide Index, Kept;
      ghost var s := View().(consumer := Woken);
      ConsumeKeeps(s);
      s := Consume(s);
      ConsumeKeeps(s);
      s := Consume(s);
      hide Inv, Bounds, Consume, Remaining;
      var t, c := threadCurrent, current;
      var stop := false;
      items := [];
      while !stop
        invariant Inv(s) && s.cells == cells[..] && s.written == written == old(written) && s.transferred == transferred
        invariant s.producer.Ready? && s.notify == notify == old(notify)
        invariant s.snapshot == |written| && s.current == current == old(current) && s.threadCurrent == threadCurrent
        invariant s.consumer == if stop then Waiting else Looping(t, c)
        invariant transferred == old(transferred) + items
        decreases Remaining(s), !stop
      {
        OneItem(s, t, c);
        t := Advance(t, cells.Length);
        if t != c {
          items := items + [cells[t]];
          transferred := transferred + [cells[t]];
          threadCurrent := t;
          s := Consume(Consume(Consume(s)));
        } else {
          s := Consume(s);
          stop := true;
        }
      }
      WaitsAtSnapshot(s);
      assert s == View();
      assert transferred == written;
      assert items == written[|old(transferred)|..];
    }

    /** `event_loop`: nothing is passed on while the flag is set. */
    method EventLoop() returns (items: seq<T>)
      requires Valid()
      modifies this
      ensures Valid() && notify && written == old(written)
      ensures items == (if old(notify) then [] else old(Queue(View()))) && transferred == old(transferred) + items
    {
      hide Index, Kept;
      ConsumeKeeps(View());
      var held := notify;
      notify := true;
      items := [];
      if !held {
        items := ReadHook();
      }
    }
  }
}
