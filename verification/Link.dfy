/** One direction of the serial link: how far the sender of an object is ahead of its receiver.
    `copy` holds each object as it stood when its transfer was granted. */
module Link {
  import opened Bits
  import opened Codec
  import opened Endpoint

  /** The three bytes the next round carries. */
  function Group(copy: seq<seq<byte>>, d: nat, pos: nat): (t: seq<byte>)
    requires d < |copy| && pos + 3 <= |copy[d]|
    ensures |t| == 3
  {
    copy[d][pos..pos + 3]
  }

  predicate SameSizes(a: seq<seq<byte>>, b: seq<seq<byte>>) {
    |a| == |b| && forall j :: 0 <= j < |a| ==> |a[j]| == |b[j]|
  }

  /** The receiver's object is `copy` up to the read position, and its assembly register holds the
      sextets of the open round. */
  predicate Received(rx: Receiver, copy: seq<seq<byte>>, objects: seq<seq<byte>>) {
    && rx.dest < |copy| == |objects| && |copy[rx.dest]| == |objects[rx.dest]|
    && rx.pos + 3 <= |copy[rx.dest]|
    && objects[rx.dest][..rx.pos] == copy[rx.dest][..rx.pos]
    && Assembled(rx.dec, Group(copy, rx.dest, rx.pos), rx.phase)
  }

  /** Every byte the sender wrote has been read. */
  predicate Synced(tx: Sender, rx: Receiver, copy: seq<seq<byte>>, objects: seq<seq<byte>>) {
    && tx.lock == rx.lock
    && (tx.lock ==>
          && Received(rx, copy, objects)
          && tx.origin == rx.dest
          && tx.phase == rx.phase
          && tx.pos == rx.pos + rx.phase
          && Holds(tx.enc, Group(copy, rx.dest, rx.pos)))
    && (!tx.lock ==> rx.dec == EMPTY)
  }

  /** `b` carries the last sextet of the object `rx` is open for. */
  predicate Final(rx: Receiver, copy: seq<seq<byte>>)
    requires rx.dest < |copy|
  {
    rx.phase == 3 && rx.pos + 3 == |copy[rx.dest]|
  }

  /** The sender is one data byte, `b`, ahead of the open receiver `rx`. */
  predicate Ahead(tx: Sender, rx: Receiver, copy: seq<seq<byte>>, objects: seq<seq<byte>>, b: byte) {
    && rx.lock
    && Received(rx, copy, objects)
    && Low6(b) == Sextet(Group(copy, rx.dest, rx.pos), rx.phase)
    && tx.origin == rx.dest
    && (if Final(rx, copy) then !tx.lock
        else
          && tx.lock
          && tx.phase == (rx.phase + 1) % 4
          && tx.pos == rx.pos + (if rx.phase == 3 then 3 else rx.phase + 1)
          && (rx.phase < 3 ==> Holds(tx.enc, Group(copy, rx.dest, rx.pos))))
  }

  /** The receiver `rx` as `read_object` opens it on the next data byte. */
  function Opened(rx: Receiver, count: nat): Receiver
    requires |rx.readLock| == NUM_IDS && count <= NUM_IDS
  {
    if rx.lock then rx else rx.(lock := true, dest := FirstReadLock(rx, count))
  }

  /** Sender and receiver, each scanning by itself, open the same object. */
  lemma OpenTogether(tx: Sender, rx: Receiver, copy: seq<seq<byte>>, mine: seq<seq<byte>>, theirs: seq<seq<byte>>)
    requires ValidSizes(mine) && SameSizes(mine, copy) && SameSizes(mine, theirs)
    requires ValidSender(tx, mine) && ValidReceiver(rx, theirs)
    requires Synced(tx, rx, copy, theirs) && !tx.lock
    requires tx.transfer == rx.readLock
    requires Lowest(tx.transfer, 0, |mine|) < |mine|
    ensures var j := Lowest(tx.transfer, 0, |mine|);
            && Opened(rx, |mine|) == rx.(lock := true, dest := j)
            && ValidSender(tx.(lock := true, origin := j), mine)
            && ValidReceiver(Opened(rx, |mine|), theirs)
            && Synced(tx.(lock := true, origin := j), Opened(rx, |mine|), copy, theirs)
  {
    var j := Lowest(tx.transfer, 0, |mine|);
    assert |mine[j]| > 0 && |mine[j]| % 3 == 0 && |copy[j]| >= 3;
    TopSextetsStep(Group(copy, j, 0), 0);
  }

  /** Writing a data byte puts the sender one byte ahead. */
  lemma SendStep(tx: Sender, rx: Receiver, copy: seq<seq<byte>>, mine: seq<seq<byte>>, theirs: seq<seq<byte>>,
                 wires: Wires)
    requires ValidSizes(mine) && SameSizes(mine, copy) && SameSizes(mine, theirs)
    requires ValidSender(tx, mine) && ValidReceiver(rx, theirs)
    requires Synced(tx, rx, copy, theirs) && tx.lock
    requires mine[tx.origin] == copy[tx.origin]
    ensures var (tx', b) := WriteObject(tx, mine, wires);
            && Ahead(tx', rx, copy, theirs, b)
            && b == SetSignals(Low6(b), wires.requestOut, wires.ackOut)
            && tx'.transfer == (if Final(rx, copy) then tx.transfer[rx.dest := false] else tx.transfer)
            && tx'.origin == tx.origin
  {
    hide WriteByte, Sextet, SetSignals;
    var t := Group(copy, rx.dest, rx.pos);
    var w := if tx.phase < 3 then mine[tx.origin][tx.pos] else NO_DATA;
    assert tx.phase < 3 ==> w == t[tx.phase];
    WriteMakesSextet(tx.enc, t, w, wires.requestOut, wires.ackOut);
    var s := Sextet(t, tx.phase);
    SignalsKeepData(s, wires.requestOut, wires.ackOut);
    assert Low6(s) == s;
    RoundsFit(tx.pos, |mine[tx.origin]|);
  }

  lemma RoundsFit(pos: nat, size: nat)
    requires pos <= size && size % 3 == 0
    ensures pos % 3 == 0 && pos < size ==> pos + 3 <= size
  {
  }

  /** Reading that byte brings the receiver level again; with the last byte of an object the
      receiver's object equals the granted copy and its read lock is gone. */
  lemma ReadStep(tx: Sender, rx: Receiver, copy: seq<seq<byte>>, objects: seq<seq<byte>>, b: byte)
    requires ValidSizes(objects) && SameSizes(objects, copy)
    requires ValidSender(tx, objects) && ValidReceiver(rx, objects)
    requires Ahead(tx, rx, copy, objects, b)
    ensures var (rx', objects') := TakeByte(rx, objects, b);
            && Synced(tx, rx', copy, objects')
            && SameSizes(objects', copy)
            && (forall j :: 0 <= j < |objects| && j != rx.dest ==> objects'[j] == objects[j])
            && (if Final(rx, copy) then
                  rx'.readLock == rx.readLock[rx.dest := false] && objects'[rx.dest] == copy[rx.dest]
                else rx'.readLock == rx.readLock)
  {
    hide ReadByte, Sextet, Low6, TopSextets, BigEndian, Digits;
    var t := Group(copy, rx.dest, rx.pos);
    ReadTakesSextet(rx.dec, t, b, rx.phase);
    if rx.phase == 3 {
      DigitsOfBigEndian(t);
      var o, o' := objects[rx.dest], Store(objects[rx.dest], rx.pos, t);
      assert o'[..rx.pos + 3] == copy[rx.dest][..rx.pos + 3];
      if rx.pos + 3 == |o| {
        assert o' == o'[..rx.pos + 3] && copy[rx.dest] == copy[rx.dest][..rx.pos + 3];
      } else {
        RoundsFit(rx.pos + 3, |o|);
        TopSextetsStep(Group(copy, rx.dest, rx.pos + 3), 0);
      }
    }
  }
}
