/** What a completed transfer delivers, and how the two sides keep the same position without ever
    telling each other. */
module Delivery {
  import opened Bits
  import opened Codec
  import opened Endpoint
  import opened Link
  import opened Pair
  import opened Mirror
  import opened Safety

  // ----- Positions -----

  /** Sextets sent of the open object. */
  function SentCount(tx: Sender): int {
    4 * ((tx.pos - tx.phase) / 3) + tx.phase
  }

  /** Sextets read of the open object. */
  function ReadCount(rx: Receiver): int {
    4 * (rx.pos / 3) + rx.phase
  }

  /** Sextets that carry an object. */
  function Cost(size: nat): nat {
    4 * (size / 3)
  }

  /** `SentCount` is that number: none when the object is opened, one more with every byte written,
      and the object is complete with the last of them. */
  lemma WriteCounts(tx: Sender, objects: seq<seq<byte>>, wires: Wires)
    requires ValidSizes(objects) && ValidSender(tx, objects)
    ensures !tx.lock ==> forall j :: SentCount(Opening(tx, j)) == 0
    ensures tx.lock ==>
              var tx' := WriteObject(tx, objects, wires).0;
              if tx'.lock then
                SentCount(tx') == SentCount(tx) + 1 && tx'.transfer == tx.transfer
              else
                SentCount(tx) == Cost(|objects[tx.origin]|) - 1 && tx'.transfer == tx.transfer[tx.origin := false]
  {
    hide WriteByte;
  }

  /** And so is `ReadCount`. */
  lemma ReadCounts(rx: Receiver, objects: seq<seq<byte>>, b: byte)
    requires ValidSizes(objects) && ValidReceiver(rx, objects)
    ensures !rx.lock && OpenRead(rx, |objects|).Ok? ==> ReadCount(OpenRead(rx, |objects|).value) == 0
    ensures rx.lock ==>
              var rx' := TakeByte(rx, objects, b).0;
              if rx'.lock then ReadCount(rx') == ReadCount(rx) + 1 && rx'.readLock == rx.readLock
              else
                ReadCount(rx) == Cost(|objects[rx.dest]|) - 1 && rx'.readLock == rx.readLock[rx.dest := false]
  {
    hide ReadByte, Store, Digits;
    if rx.lock {
      RoundLeft(rx.pos, |objects[rx.dest]|);
    }
  }

  /** x sends object `origin`; y, selecting for itself, reads the same object and is at most one
      sextet behind. With n sextets sent and m read the positions are those of n and m. While the last
      sextet is on its way x has closed the object, and y has read all the others. */
  predicate InStepWith(x: Endpoint, y: Endpoint, inFlight: bool)
    requires Valid(x) && Valid(y)
  {
    && (x.tx.lock ==>
          var n, m := SentCount(x.tx), ReadCount(y.rx);
          && Opened(y.rx, |y.objects|).dest == x.tx.origin
          && m == (if inFlight && !x.wires.requestOut then n - 1 else n)
          && x.tx.pos == 3 * (n / 4) + (if n % 4 < 3 then n % 4 else 3)
          && y.rx.pos == 3 * (m / 4))
    && (!x.tx.lock && inFlight && !x.wires.requestOut && !y.firstRun ==>
          && Opened(y.rx, |y.objects|).dest == x.tx.origin < |y.objects|
          && ReadCount(y.rx) == Cost(|y.objects[x.tx.origin]|) - 1
          && y.rx.pos + 3 == |y.objects[x.tx.origin]|)
  }

  lemma PositionArithmetic(pos: nat, phase: nat)
    requires phase <= 3 && phase <= pos && (pos - phase) % 3 == 0
    ensures var n := 4 * ((pos - phase) / 3) + phase;
            n >= 0 && pos == 3 * (n / 4) + (if n % 4 < 3 then n % 4 else 3)
  {
    var q := (pos - phase) / 3;
    assert pos == 3 * q + phase;
    assert (4 * q + phase) / 4 == q && (4 * q + phase) % 4 == phase;
  }

  lemma LevelPositions(x: Endpoint, y: Endpoint, copyX: seq<seq<byte>>, inFlight: bool)
    requires Side(x, copyX) && Valid(y) && Synced(x.tx, y.rx, copyX, y.objects)
    requires inFlight ==> x.wires.requestOut
    ensures InStepWith(x, y, inFlight)
  {
    hide Exclusive, Copied, Assembled, Holds, None, Blank;
    if x.tx.lock {
      PositionArithmetic(x.tx.pos, x.tx.phase);
    }
  }

  lemma AheadArithmetic(pos: nat, phase: nat, pos': nat, phase': nat)
    requires phase' <= 3 && pos' % 3 == 0 && phase == (phase' + 1) % 4
    requires pos == pos' + (if phase' == 3 then 3 else phase' + 1)
    ensures 4 * (pos' / 3) + phase' == 4 * ((pos - phase) / 3) + phase - 1
    ensures pos' == 3 * ((4 * (pos' / 3) + phase') / 4)
  {
    var q := pos' / 3;
    assert pos' == 3 * q && (4 * q + phase') / 4 == q;
  }

  lemma AheadPositions(x: Endpoint, y: Endpoint, copyX: seq<seq<byte>>, b: byte)
    requires Side(x, copyX) && Valid(y) && SameSizes(x.objects, y.objects)
    requires !x.wires.requestOut && DataInFlight(x, y, copyX, b)
    ensures InStepWith(x, y, true)
  {
    hide Exclusive, Copied, Assembled, Holds, None, Blank, Sextet, Low6;
    var rx := Opened(y.rx, |y.objects|);
    if x.tx.lock {
      PositionArithmetic(x.tx.pos, x.tx.phase);
      AheadArithmetic(x.tx.pos, x.tx.phase, rx.pos, rx.phase);
    } else {
      assert Final(rx, copyX);
      LastArithmetic(rx.pos, |copyX[rx.dest]|);
    }
  }

  lemma LastArithmetic(pos: nat, size: nat)
    requires pos % 3 == 0 && pos + 3 == size
    ensures 4 * (pos / 3) + 3 == Cost(size) - 1
  {
  }

  lemma SentPositions(x: Endpoint, y: Endpoint, copyX: seq<seq<byte>>, copyY: seq<seq<byte>>, b: byte)
    requires Sent(x, y, copyX, copyY, b)
    ensures InStepWith(x, y, true) && InStepWith(y, x, false)
  {
    hide Exclusive, Copied, Synced, Coherent, RequestBit, AcknowledgeBit, Low6, DataInFlight, InStepWith,
         Handshake, ValidSizes, ValidSender, ValidReceiver;
    LevelPositions(y, x, copyY, false);
    if y.firstRun {
      IdlePositions(x, y);
    } else if x.wires.requestOut {
      LevelPositions(x, y, copyX, true);
    } else {
      AheadPositions(x, y, copyX, b);
    }
  }

  lemma IdlePositions(x: Endpoint, y: Endpoint)
    requires Valid(x) && Valid(y) && !x.tx.lock && y.firstRun
    ensures InStepWith(x, y, true)
  {
  }

  lemma TakenPositions(x: Endpoint, y: Endpoint, copyX: seq<seq<byte>>, copyY: seq<seq<byte>>)
    requires Taken(x, y, copyX, copyY)
    ensures InStepWith(x, y, false) && InStepWith(y, x, false)
  {
    hide Exclusive, Copied, Synced, Coherent, InStepWith, ValidSizes, ValidSender, ValidReceiver;
    LevelPositions(x, y, copyX, false);
    LevelPositions(y, x, copyY, false);
  }

  /** Independent selection agrees, and so do the positions. */
  lemma Positions(s: System)
    requires Inv(s)
    ensures InStepWith(s.fpga, s.mcu, s.phase.McuIn?) && InStepWith(s.mcu, s.fpga, s.phase.FpgaIn?)
  {
    hide Sent, Taken, InStepWith, Closing;
    match s.phase
    case FpgaIn => SentPositions(s.mcu, s.fpga, s.mcuCopy, s.fpgaCopy, s.wire);
    case FpgaOut => TakenPositions(s.mcu, s.fpga, s.mcuCopy, s.fpgaCopy);
    case McuIn => SentPositions(s.fpga, s.mcu, s.fpgaCopy, s.mcuCopy, s.wire);
    case McuOut => TakenPositions(s.fpga, s.mcu, s.fpgaCopy, s.mcuCopy);
  }

  /** What y has read of the open object is x's object up to the read position, unless x has closed
      it already and its client has written it anew. */
  predicate PrefixOf(x: Endpoint, y: Endpoint) {
    y.rx.lock ==>
      var d, p := y.rx.dest, y.rx.pos;
      && d < |x.objects| && d < |y.objects| && p <= |x.objects[d]| && p <= |y.objects[d]|
      && d < |x.sync| && d == x.tx.origin
      && (y.objects[d][..p] == x.objects[d][..p] || (!x.tx.lock && x.sync[d]))
  }

  lemma ReceivedPrefix(x: Endpoint, y: Endpoint, copyX: seq<seq<byte>>)
    requires Side(x, copyX) && Valid(y)
    requires y.rx.lock ==> Received(y.rx, copyX, y.objects) && x.tx.origin == y.rx.dest
    requires y.rx.lock && !x.tx.lock ==> x.objects[y.rx.dest] == copyX[y.rx.dest] || x.sync[y.rx.dest]
    ensures PrefixOf(x, y)
  {
    hide Exclusive, Assembled, Blank, None, ValidSender, ValidReceiver;
  }

  lemma SentPrefix(x: Endpoint, y: Endpoint, copyX: seq<seq<byte>>, copyY: seq<seq<byte>>, b: byte)
    requires Sent(x, y, copyX, copyY, b)
    ensures PrefixOf(x, y) && PrefixOf(y, x)
  {
    hide Coherent, Exclusive, Copied, RequestBit, AcknowledgeBit, Low6, Sextet, Received, Holds, None,
         Handshake, PrefixOf;
    ReceivedPrefix(x, y, copyX);
    ReceivedPrefix(y, x, copyY);
  }

  lemma TakenPrefix(x: Endpoint, y: Endpoint, copyX: seq<seq<byte>>, copyY: seq<seq<byte>>)
    requires Taken(x, y, copyX, copyY)
    ensures PrefixOf(x, y) && PrefixOf(y, x)
  {
    hide Coherent, Exclusive, Copied, Received, Holds, None, PrefixOf;
    ReceivedPrefix(x, y, copyX);
    ReceivedPrefix(y, x, copyY);
  }

  /** In mid-transfer the receiver's first `pos` bytes are the sender's. */
  lemma PrefixDelivered(s: System)
    requires Inv(s)
    ensures PrefixOf(s.fpga, s.mcu) && PrefixOf(s.mcu, s.fpga)
  {
    hide Sent, Taken, PrefixOf, Closing;
    match s.phase
    case FpgaIn => SentPrefix(s.mcu, s.fpga, s.mcuCopy, s.fpgaCopy, s.wire);
    case FpgaOut => TakenPrefix(s.mcu, s.fpga, s.mcuCopy, s.fpgaCopy);
    case McuIn => SentPrefix(s.fpga, s.mcu, s.fpgaCopy, s.mcuCopy, s.wire);
    case McuOut => TakenPrefix(s.fpga, s.mcu, s.fpgaCopy, s.mcuCopy);
  }

  // ----- Whole transfers -----

  /** What one IN does to the read lock of object j and to its granted copy. */
  predicate LockStep(x: Endpoint, y: Endpoint, y': Endpoint, copyX: seq<seq<byte>>, copyX': seq<seq<byte>>, j: nat)
    requires Valid(x) && Valid(y) && Valid(y')
    requires j < |copyX| && SameSizes(x.objects, copyX) && SameSizes(x.objects, copyX')
    requires SameSizes(x.objects, y'.objects)
  {
    && (!y.rx.readLock[j] && y'.rx.readLock[j] ==> copyX'[j] == x.objects[j])
    && (y.rx.readLock[j] && y'.rx.readLock[j] ==> copyX'[j] == copyX[j])
    && (y.rx.readLock[j] && !y'.rx.readLock[j] ==> y'.objects[j] == copyX[j])
  }

  lemma InLockStep(x: Endpoint, y: Endpoint, copyX: seq<seq<byte>>, copyY: seq<seq<byte>>, b: byte, j: nat)
    requires Sent(x, y, copyX, copyY, b) && !y.vars.receivedSighup && j < |copyX|
    ensures In(y, b).Ok?
    ensures SameSizes(x.objects, In(y, b).value.objects) && SameSizes(x.objects, copyX)
    ensures LockStep(x, y, In(y, b).value, copyX, CopyOnGrant(x, y, In(y, b).value, copyX), j)
  {
    hide ReadHook, ReadObject, TransferHook, Acknowledge, ReceiveSignals, Handled, Synced, Taken, Exclusive,
         Copied, Coherent;
    hide RequestBit, AcknowledgeBit, Low6, Handshake, Blank, Ahead;
    InKeeps(x, y, copyX, copyY, b);
    TakenSizes(x, In(y, b).value, CopyOnGrant(x, y, In(y, b).value, copyX), copyY);
    if !y.firstRun {
      SignalsArrive(x, y, copyX, copyY, b);
      var y1 := ReceiveSignals(y, b);
      if !x.wires.requestOut {
        DataLockStep(x, y, copyX, copyY, b, j);
      } else if x.vars.acknowledgeRequested {
        RequestLockStep(x, y, copyX, copyY, b, j);
      } else {
        ReadControl(x, y, copyX, copyY, b);
        ControlKeepsReads(y, b);
        HooksKeepReads(ReadHook(y1, b).value);
      }
    }
  }

  lemma ControlKeepsReads(y: Endpoint, b: byte)
    requires Valid(y) && Valid(ReceiveSignals(y, b)) && ReadHook(ReceiveSignals(y, b), b).Ok?
    ensures ReadHook(ReceiveSignals(y, b), b).value.rx == y.rx
  {
    hide RequestBit, AcknowledgeBit, Low6, ValidSizes, ValidSender, ValidReceiver;
  }

  lemma HooksKeepReads(e: Endpoint)
    requires Valid(e) && e.incoming == NUM_IDS
    requires TransferHook(e).Ok? && Acknowledge(TransferHook(e).value).Ok?
    ensures var e' := Acknowledge(TransferHook(e).value).value;
            e'.rx == e.rx && e'.objects == e.objects && e'.incoming == NUM_IDS
  {
    hide Valid;
  }

  lemma DataLockStep(x: Endpoint, y: Endpoint, copyX: seq<seq<byte>>, copyY: seq<seq<byte>>, b: byte, j: nat)
    requires Sent(x, y, copyX, copyY, b) && !y.firstRun && !y.vars.receivedSighup
    requires !x.wires.requestOut && j < |copyX|
    requires In(y, b).Ok? && SameSizes(x.objects, In(y, b).value.objects) && SameSizes(x.objects, copyX)
    ensures LockStep(x, y, In(y, b).value, copyX, CopyOnGrant(x, y, In(y, b).value, copyX), j)
  {
    hide TakeByte, Received, Sextet, RequestBit, AcknowledgeBit, Low6, Exclusive, Copied, Coherent, Handshake,
         Blank, None, Holds;
    hide TransferHook, Acknowledge, RequestBitClear;
    SignalsArrive(x, y, copyX, copyY, b);
    DataArrives(x, y, copyX, copyY, b);
    ReadData(x, y, copyX, copyY, b);
    ReadStep(x.tx, Opened(y.rx, |y.objects|), copyX, y.objects, b);
    HooksKeepReads(ReadObject(ReceiveSignals(y, b), b).value);
  }

  lemma RequestLockStep(x: Endpoint, y: Endpoint, copyX: seq<seq<byte>>, copyY: seq<seq<byte>>, b: byte, j: nat)
    requires Sent(x, y, copyX, copyY, b) && !y.firstRun && !y.vars.receivedSighup
    requires x.vars.acknowledgeRequested && j < |copyX|
    requires In(y, b).Ok? && SameSizes(x.objects, In(y, b).value.objects) && SameSizes(x.objects, copyX)
    ensures LockStep(x, y, In(y, b).value, copyX, CopyOnGrant(x, y, In(y, b).value, copyX), j)
  {
    hide RequestBit, AcknowledgeBit, Low6, Synced, Exclusive, Copied, Coherent, Handshake, Blank, None,
         RequestBitClear, ReadHook;
    hide DataInFlight;
    SignalsArrive(x, y, copyX, copyY, b);
    RequestIsFree(x, y, copyX, copyY, b);
    RequestHook(ReceiveSignals(y, b), b, x.waiting);
  }

  /** The side that receives, the side that sends to it, and the sender's granted copies. */
  function Reader(s: System, role: Role): Endpoint {
    if role.Mcu? then s.mcu else s.fpga
  }

  function Writer(s: System, role: Role): Endpoint {
    if role.Mcu? then s.fpga else s.mcu
  }

  function CopyFor(s: System, role: Role): seq<seq<byte>> {
    if role.Mcu? then s.fpgaCopy else s.mcuCopy
  }

  lemma StepSizes(s: System, a: Action, s': System)
    requires Inv(s) && Next(s, a, s')
    ensures Inv(s') && SameSizes(s.fpga.objects, s'.fpga.objects)
  {
    hide Sent, Taken, In, Out, Timely, None, Closing;
    StepKeeps(s, a);
    if a.HalfTurn? && s.phase.FpgaOut? {
      OutFrame(s.fpga);
    } else if a.HalfTurn? && s.phase.McuOut? {
      OutFrame(s.mcu);
    }
  }

  lemma LockStepOf(s: System, a: Action, s': System, role: Role, j: nat)
    requires Inv(s) && Next(s, a, s') && j < |s.fpga.objects|
    ensures Inv(s') && SameSizes(s.fpga.objects, s'.fpga.objects)
    ensures LockStep(Writer(s, role), Reader(s, role), Reader(s', role), CopyFor(s, role), CopyFor(s', role), j)
  {
    hide Sent, Taken, In, Out, Timely, Written, None, Closing, LockStep;
    StepSizes(s, a, s');
    if a.HalfTurn? && role.Mcu? && s.phase.McuIn? {
      assert !s.mcu.vars.receivedSighup by { assert Closing(s); NoSighupYet(s); }
      InLockStep(s.fpga, s.mcu, s.fpgaCopy, s.mcuCopy, s.wire, j);
    } else if a.HalfTurn? && role.Fpga? && s.phase.FpgaIn? {
      assert !s.fpga.vars.receivedSighup by { NoSighupYet(s); }
      InLockStep(s.mcu, s.fpga, s.mcuCopy, s.fpgaCopy, s.wire, j);
    } else {
      OtherLockStep(s, a, s', role, j);
    }
  }

  /** Steps in which this reader does not read leave its locks and granted copies alone. */
  lemma OtherLockStep(s: System, a: Action, s': System, role: Role, j: nat)
    requires Inv(s) && Next(s, a, s') && Inv(s') && j < |s.fpga.objects|
    requires SameSizes(s.fpga.objects, s'.fpga.objects)
    requires !(a.HalfTurn? && role.Mcu? && s.phase.McuIn?) && !(a.HalfTurn? && role.Fpga? && s.phase.FpgaIn?)
    ensures LockStep(Writer(s, role), Reader(s, role), Reader(s', role), CopyFor(s, role), CopyFor(s', role), j)
  {
    hide Sent, Taken, In, Out, Timely, None, Closing, Written;
    assert Reader(s', role).rx == Reader(s, role).rx by {
      if a.LocalWrite? {
        WriteKeepsReads(Reader(s, a.role), a.id, a.value);
      } else if a.HalfTurn? && s.phase.FpgaOut? {
        OutFrame(s.fpga);
      } else if a.HalfTurn? && s.phase.McuOut? {
        OutFrame(s.mcu);
      }
    }
  }

  lemma WriteKeepsReads(e: Endpoint, j: nat, value: seq<byte>)
    requires Valid(e) && Writable(e, j, value)
    ensures Written(e, j, value).rx == e.rx
  {
  }

  ghost predicate LockedAt(s: System, role: Role, j: nat) {
    ValidSystem(s) && j < |s.fpga.objects| && Reader(s, role).rx.readLock[j]
  }

  /** `LockStepOf` for a lock that is taken, held or released. */
  lemma OneLockStep(s: System, a: Action, s': System, role: Role, j: nat)
    requires Inv(s) && Next(s, a, s') && j < |s.fpga.objects|
    ensures ValidSystem(s') && |s'.fpga.objects| == |s.fpga.objects|
    ensures !LockedAt(s, role, j) && LockedAt(s', role, j) ==> CopyFor(s', role)[j] == Writer(s, role).objects[j]
    ensures LockedAt(s, role, j) && LockedAt(s', role, j) ==> CopyFor(s', role)[j] == CopyFor(s, role)[j]
    ensures LockedAt(s, role, j) && !LockedAt(s', role, j) ==> Reader(s', role).objects[j] == CopyFor(s, role)[j]
  {
    hide InStep, Closing, In, Out, Timely, Step;
    LockStepOf(s, a, s', role, j);
  }

  lemma {:induction false} CopyStands(objects: seq<seq<byte>>, wire: byte, ss: seq<System>, acts: seq<Action>,
                                      role: Role, j: nat, i: nat, k: nat)
    requires Run(objects, wire, ss, acts) && i < k <= |acts|
    requires ValidSystem(ss[i]) && j < |ss[i].fpga.objects| && !LockedAt(ss[i], role, j)
    requires forall t :: i < t <= k ==> LockedAt(ss[t], role, j)
    ensures ValidSystem(ss[k]) && j < |ss[k].fpga.objects|
    ensures CopyFor(ss[k], role)[j] == Writer(ss[i], role).objects[j]
    decreases k - i
  {
    hide Inv, Step, Enabled, Timely, Init;
    RunInv(objects, wire, ss, acts, k - 1);
    assert Next(ss[k - 1], acts[k - 1], ss[k]);
    assert LockedAt(ss[k], role, j);
    if k - 1 > i {
      assert LockedAt(ss[k - 1], role, j);
      CopyStands(objects, wire, ss, acts, role, j, i, k - 1);
    }
    OneLockStep(ss[k - 1], acts[k - 1], ss[k], role, j);
  }

  /** Delivery: over any run, when the read lock of an object taken at step i is released at step k,
      the receiver's object is the sender's as it stood at step i, whatever was written meanwhile. */
  lemma Delivered(objects: seq<seq<byte>>, wire: byte, ss: seq<System>, acts: seq<Action>, role: Role, j: nat,
                  i: nat, k: nat)
    requires Run(objects, wire, ss, acts) && i < k < |acts|
    requires ValidSystem(ss[i]) && j < |ss[i].fpga.objects| && !LockedAt(ss[i], role, j)
    requires forall t :: i < t <= k ==> LockedAt(ss[t], role, j)
    requires !LockedAt(ss[k + 1], role, j)
    ensures ValidSystem(ss[k + 1]) && |ss[k + 1].fpga.objects| == |ss[i].fpga.objects|
    ensures Reader(ss[k + 1], role).objects[j] == Writer(ss[i], role).objects[j]
  {
    hide Inv, Step, Enabled, Timely, Init;
    CopyStands(objects, wire, ss, acts, role, j, i, k);
    RunInv(objects, wire, ss, acts, k);
    assert Next(ss[k], acts[k], ss[k + 1]);
    assert LockedAt(ss[k], role, j);
    OneLockStep(ss[k], acts[k], ss[k + 1], role, j);
    RunCounts(objects, wire, ss, acts, i, k + 1);
  }

  lemma {:induction false} RunCounts(objects: seq<seq<byte>>, wire: byte, ss: seq<System>, acts: seq<Action>,
                                     i: nat, k: nat)
    requires Run(objects, wire, ss, acts) && i <= k <= |acts|
    ensures |ss[k].fpga.objects| == |ss[i].fpga.objects|
    decreases k - i
  {
    hide Inv, Step, Enabled, Timely, Init;
    if i < k {
      RunCounts(objects, wire, ss, acts, i, k - 1);
      RunInv(objects, wire, ss, acts, k - 1);
      assert Next(ss[k - 1], acts[k - 1], ss[k]);
      StepSizes(ss[k - 1], acts[k - 1], ss[k]);
    }
  }
}
