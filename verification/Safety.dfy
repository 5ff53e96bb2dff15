/** What holds in every reachable state and over every run of the link. */
module Safety {
  import opened Results
  import opened Bits
  import opened Codec
  import opened Endpoint
  import opened Link
  import opened Pair
  import opened Mirror

  /** One allowed step. */
  ghost predicate Next(s: System, a: Action, s': System) {
    ValidSystem(s) && Enabled(s, a) && Timely(s, a) && Step(s, a) == Ok(s')
  }

  /** A run: the states ss joined by the actions acts, from the start on. */
  ghost predicate Run(objects: seq<seq<byte>>, wire: byte, ss: seq<System>, acts: seq<Action>) {
    && ValidSizes(objects)
    && |ss| == |acts| + 1
    && ss[0] == Init(objects, wire)
    && forall i :: 0 <= i < |acts| ==> Next(ss[i], acts[i], ss[i + 1])
  }

  lemma ExtendRun(objects: seq<seq<byte>>, wire: byte, ss: seq<System>, acts: seq<Action>, a: Action, s': System)
    returns (ss': seq<System>, acts': seq<Action>)
    requires Run(objects, wire, ss, acts) && Next(ss[|acts|], a, s')
    ensures ss' == ss + [s'] && acts' == acts + [a]
    ensures Run(objects, wire, ss', acts') && ss'[|acts'|] == s'
  {
    hide Step, Enabled, Timely, Init, ValidSystem;
    ss', acts' := ss + [s'], acts + [a];
    forall i | 0 <= i < |acts'|
      ensures Next(ss'[i], acts'[i], ss'[i + 1])
    {
      if i < |acts| {
        assert Next(ss[i], acts[i], ss[i + 1]);
      }
    }
  }

  lemma {:induction false} RunInv(objects: seq<seq<byte>>, wire: byte, ss: seq<System>, acts: seq<Action>, k: nat)
    requires Run(objects, wire, ss, acts) && k < |ss|
    ensures Inv(ss[k])
  {
    hide Inv, Step, Enabled, Timely, Init;
    if k == 0 {
      InitInv(objects, wire);
    } else {
      RunInv(objects, wire, ss, acts, k - 1);
      assert Next(ss[k - 1], acts[k - 1], ss[k]);
      StepKeeps(ss[k - 1], acts[k - 1]);
    }
  }

  /** Error freedom: no run reaches an abort, whatever step the environment takes next. */
  lemma ErrorFree(objects: seq<seq<byte>>, wire: byte, ss: seq<System>, acts: seq<Action>, a: Action)
    requires Run(objects, wire, ss, acts)
    ensures ValidSystem(ss[|acts|])
    ensures Enabled(ss[|acts|], a) ==> Step(ss[|acts|], a).Ok?
  {
    hide InStep, Closing, In, None, Writable, Written;
    var s := ss[|acts|];
    RunInv(objects, wire, ss, acts, |acts|);
    if Enabled(s, a) {
      if Timely(s, a) {
        StepKeeps(s, a);
      } else if s.phase.FpgaOut? {
        assert Choose(s.fpga).Shutdown?;
      } else {
        assert Choose(s.mcu).Shutdown?;
      }
    }
  }

  // ----- Coherence -----

  /** The two copies of an object differ only while a side has a sync request for it or is receiving
      it; so when nothing is pending the memories are equal. */
  lemma MirrorsCohere(s: System)
    requires Inv(s)
    ensures forall j :: 0 <= j < |s.fpga.objects| ==>
              || s.fpga.objects[j] == s.mcu.objects[j]
              || s.fpga.sync[j] || s.mcu.sync[j] || s.fpga.rx.readLock[j] || s.mcu.rx.readLock[j]
    ensures None(s.fpga.sync) && None(s.mcu.sync) && None(s.fpga.rx.readLock) && None(s.mcu.rx.readLock) ==>
              s.fpga.objects == s.mcu.objects
  {
    hide Synced, Exclusive, Copied, ValidSender, ValidReceiver, Blank;
    assert MirrorsAgree(s.fpga, s.mcu) || MirrorsAgree(s.mcu, s.fpga);
  }

  // ----- Ownership -----

  /** x's transfers are y's read locks, but for a grant on its way to x and for the object whose
      last byte is on its way to y. */
  predicate Owned(x: Endpoint, y: Endpoint, inFlight: bool)
    requires Valid(x) && Valid(y)
  {
    && (forall j :: 0 <= j < NUM_IDS && x.tx.transfer[j] ==> y.rx.readLock[j])
    && (forall j :: 0 <= j < NUM_IDS && y.rx.readLock[j] ==>
          || x.tx.transfer[j]
          || (x.vars.acknowledgeRequested && j == x.waiting)
          || (inFlight && !x.wires.requestOut && !x.tx.lock && j == Opened(y.rx, |y.objects|).dest))
  }

  lemma SentOwnership(x: Endpoint, y: Endpoint, copyX: seq<seq<byte>>, copyY: seq<seq<byte>>, b: byte)
    requires Sent(x, y, copyX, copyY, b)
    ensures Owned(x, y, true) && Owned(y, x, false)
  {
    hide Synced, Received, Sextet, Holds, Copied, Coherent, ValidSizes, RequestBit, AcknowledgeBit, Low6;
  }

  lemma TakenOwnership(x: Endpoint, y: Endpoint, copyX: seq<seq<byte>>, copyY: seq<seq<byte>>)
    requires Taken(x, y, copyX, copyY)
    ensures Owned(x, y, false) && Owned(y, x, false)
  {
    hide Synced, Copied, Coherent, ValidSizes;
  }

  /** No object is ever in transfer on both sides, nor in transfer and read-locked on one. */
  lemma Ownership(s: System)
    requires Inv(s)
    ensures Owned(s.fpga, s.mcu, s.phase.McuIn?) && Owned(s.mcu, s.fpga, s.phase.FpgaIn?)
    ensures forall j :: 0 <= j < NUM_IDS ==>
              && !(s.fpga.tx.transfer[j] && s.mcu.tx.transfer[j])
              && !(s.fpga.tx.transfer[j] && s.fpga.rx.readLock[j])
              && !(s.mcu.tx.transfer[j] && s.mcu.rx.readLock[j])
  {
    hide Synced, Flight, Copied, Coherent, ValidSizes, ValidSender, ValidReceiver, Closing, Blank, Handshake;
    match s.phase
    case FpgaIn => SentOwnership(s.mcu, s.fpga, s.mcuCopy, s.fpgaCopy, s.wire);
    case FpgaOut => TakenOwnership(s.mcu, s.fpga, s.mcuCopy, s.fpgaCopy);
    case McuIn => SentOwnership(s.fpga, s.mcu, s.fpgaCopy, s.mcuCopy, s.wire);
    case McuOut => TakenOwnership(s.fpga, s.mcu, s.fpgaCopy, s.mcuCopy);
  }

  // ----- Framing -----

  /** The six bits OUT sends, for everything but object data. */
  function CodeOf(c: Choice): byte
    requires !c.Data? && !c.Transfer? && (c.Request? ==> c.id < NUM_IDS)
  {
    match c
    case PowerOn => POWERON
    case Request(j) => j + LOWER_STATES
    case Shutdown => SHUTDOWN
    case Sighup => SIGHUP
    case Idle => IDLE
  }

  lemma OutIsOk(x: Endpoint, y: Endpoint, copyX: seq<seq<byte>>, copyY: seq<seq<byte>>)
    requires Taken(x, y, copyX, copyY)
    ensures Out(y).Ok?
  {
    hide Sent, Synced, Copied, Coherent, SendData, Blank;
    if !Choose(y).Shutdown? {
      OutKeeps(x, y, copyX, copyY);
    }
  }

  /** Bit 7 of the byte OUT writes is clear exactly for object data, bit 6 is set exactly when the
      peer's last byte was a request, and a request or control code is in the low six bits. */
  lemma FramedOut(x: Endpoint, y: Endpoint, copyX: seq<seq<byte>>, copyY: seq<seq<byte>>)
    requires Taken(x, y, copyX, copyY)
    ensures Out(y).Ok?
    ensures var (y', b) := Out(y).value;
            && (RequestBit(b) <==> !Choose(y).Data? && !Choose(y).Transfer?)
            && (AcknowledgeBit(b) <==> x.vars.acknowledgeRequested)
            && (RequestBit(b) ==> Low6(b) == CodeOf(Choose(y)))
  {
    hide Out, Choose, Synced, Copied, Coherent, RequestBit, AcknowledgeBit, Low6, Blank;
    assert Out(y).Ok? by {
      OutIsOk(x, y, copyX, copyY);
    }
    if Choose(y).Data? || Choose(y).Transfer? {
      DataFramed(x, y, copyX, copyY);
    } else {
      SignalFramed(y);
    }
  }

  lemma SignalFramed(y: Endpoint)
    requires Valid(y) && Out(y).Ok?
    requires var c := Choose(y); !c.Data? && !c.Transfer? && (c.Request? ==> c.id < NUM_IDS)
    ensures var b := Out(y).value.1;
            && RequestBit(b) && (AcknowledgeBit(b) <==> y.wires.ackOut)
            && Low6(b) == CodeOf(Choose(y))
  {
    hide Valid, Choose, RequestBit, AcknowledgeBit, Low6, SetSignals;
    SignalsKeepData(CodeOf(Choose(y)), true, y.wires.ackOut);
  }

  lemma DataFramed(x: Endpoint, y: Endpoint, copyX: seq<seq<byte>>, copyY: seq<seq<byte>>)
    requires Taken(x, y, copyX, copyY) && Out(y).Ok?
    requires Choose(y).Data? || Choose(y).Transfer?
    ensures var b := Out(y).value.1;
            !RequestBit(b) && (AcknowledgeBit(b) <==> y.wires.ackOut)
  {
    hide Synced, Copied, Coherent, WriteObject, RequestBit, AcknowledgeBit, Low6, TransfersPending,
         IncomingShutdownQuery;
    NonePending(y, copyY);
    assert !None(y.tx.transfer);
    DataSignals(if y.tx.lock then y.tx else Opening(y.tx, FirstTransfer(y)), y.objects, y.wires);
  }

  lemma DataSignals(tx: Sender, objects: seq<seq<byte>>, wires: Wires)
    requires ValidSizes(objects) && ValidSender(tx, objects) && tx.lock
    ensures var b := WriteObject(tx, objects, wires).1;
            (RequestBit(b) <==> wires.requestOut) && (AcknowledgeBit(b) <==> wires.ackOut)
  {
    hide WriteByte, Sextet, SetSignals, RequestBit, AcknowledgeBit;
    var w := if tx.phase < 3 then objects[tx.origin][tx.pos] else NO_DATA;
    var t := if tx.phase < 3 then tx.enc.assembly[tx.phase := w] else tx.enc.assembly;
    WriteMakesSextet(tx.enc, t, w, wires.requestOut, wires.ackOut);
    SignalsKeepData(Sextet(t, tx.phase), wires.requestOut, wires.ackOut);
  }

  /** A reader takes the byte for what it is: data when bit 7 is clear; otherwise exactly the
      control code, or exactly the object id, that was encoded. */
  lemma FramedIn(x: Endpoint, y: Endpoint, copyX: seq<seq<byte>>, copyY: seq<seq<byte>>, b: byte)
    requires Sent(x, y, copyX, copyY, b) && !y.firstRun && !y.vars.receivedSighup
    ensures In(y, b).Ok?
    ensures var y' := In(y, b).value;
            && (y'.incoming < NUM_IDS <==> x.vars.acknowledgeRequested)
            && (x.vars.acknowledgeRequested ==>
                  y'.incoming == x.waiting && y'.rx.readLock[x.waiting] && y'.wires.ackOut)
            && (RequestBit(b) ==> y'.objects == y.objects)
            && (!RequestBit(b) ==> DataInFlight(x, y, copyX, b))
            && (RequestBit(b) && !x.vars.acknowledgeRequested ==> IsControl(Low6(b)) && y'.vars == VarsAfter(y, b))
  {
    hide ReadHook, ReadObject, TransferHook, Acknowledge, ReceiveSignals, Handled, Synced, Taken, Exclusive,
         Copied, Coherent;
    hide RequestBit, AcknowledgeBit, Low6, DataInFlight, Handshake, VarsAfter;
    InKeeps(x, y, copyX, copyY, b);
    SignalsArrive(x, y, copyX, copyY, b);
    var y1 := ReceiveSignals(y, b);
    if !x.wires.requestOut {
      ReadData(x, y, copyX, copyY, b);
      HooksKeep(ReadObject(y1, b).value);
    } else if x.vars.acknowledgeRequested {
      ReadRequest(x, y, copyX, copyY, b);
      HooksKeep(ReadHook(y1, b).value);
      RequestKeepsObjects(y, b);
      assert Taken(x, In(y, b).value, CopyOnGrant(x, y, In(y, b).value, copyX), copyY);
      TakenAnswers(x, In(y, b).value, CopyOnGrant(x, y, In(y, b).value, copyX), copyY);
    } else {
      ReadControl(x, y, copyX, copyY, b);
      HooksKeep(ReadHook(y1, b).value);
      RequestKeepsObjects(y, b);
      ControlTakes(x, y, copyX, copyY, b);
    }
  }

  /** The flags after a control code and its acknowledge bit have been read. */
  function VarsAfter(y: Endpoint, b: byte): ComVars {
    ControlVars(ReceiveSignals(y, b), Low6(b)).(acknowledgeRequested := false)
  }

  lemma ControlTakes(x: Endpoint, y: Endpoint, copyX: seq<seq<byte>>, copyY: seq<seq<byte>>, b: byte)
    requires Sent(x, y, copyX, copyY, b) && !y.firstRun && !y.vars.receivedSighup && Control(x)
    ensures IsControl(Low6(b)) && In(y, b).Ok? && In(y, b).value.vars == VarsAfter(y, b)
  {
    hide ReadHook, ReceiveSignals, TransferHook, Acknowledge, ControlVars, Taken, Synced, Coherent, DataInFlight;
    hide Exclusive, Copied, ValidSizes, ValidSender, ValidReceiver, Handled, RequestBit, AcknowledgeBit, Low6;
    InKeeps(x, y, copyX, copyY, b);
    SignalsArrive(x, y, copyX, copyY, b);
    ReadControl(x, y, copyX, copyY, b);
    var y1 := ReceiveSignals(y, b);
    var y2 := ReadHook(y1, b).value;
    TakenQuiet(x, In(y, b).value, CopyOnGrant(x, y, In(y, b).value, copyX), copyY);
    HooksFrame(y2);
    ControlArrives(x, y, copyX, copyY, b);
  }

  lemma TakenQuiet(x: Endpoint, y: Endpoint, copyX: seq<seq<byte>>, copyY: seq<seq<byte>>)
    requires Taken(x, y, copyX, copyY)
    ensures !y.vars.acknowledgeRequested
  {
    hide Synced, Coherent, Side;
  }

  lemma ControlArrives(x: Endpoint, y: Endpoint, copyX: seq<seq<byte>>, copyY: seq<seq<byte>>, b: byte)
    requires Sent(x, y, copyX, copyY, b) && !y.firstRun && !y.vars.receivedSighup && Control(x)
    ensures Valid(ReceiveSignals(y, b)) && IsControl(Low6(b))
    ensures ReadHook(ReceiveSignals(y, b), b) ==
              Ok(ReceiveSignals(y, b).(vars := ControlVars(ReceiveSignals(y, b), Low6(b))))
  {
    hide RequestBit, AcknowledgeBit, Low6, Synced, DataInFlight, Exclusive, Copied, Coherent;
    hide ValidSizes, ValidSender, ValidReceiver, None, RequestBitClear, ReadHook, ControlVars;
    SignalsArrive(x, y, copyX, copyY, b);
    ControlIs(ReceiveSignals(y, b), b);
  }

  lemma TakenAnswers(x: Endpoint, y: Endpoint, copyX: seq<seq<byte>>, copyY: seq<seq<byte>>)
    requires Taken(x, y, copyX, copyY)
    ensures y.wires.ackOut == x.vars.acknowledgeRequested
    ensures x.vars.acknowledgeRequested ==> y.rx.readLock[x.waiting]
  {
    hide Synced, Exclusive, Copied, Coherent;
    assert y.rx.readLock == Grants(x);
  }

  lemma HooksKeep(e: Endpoint)
    requires Valid(e) && TransferHook(e).Ok? && Acknowledge(TransferHook(e).value).Ok?
    ensures var e' := Acknowledge(TransferHook(e).value).value;
            e'.incoming == e.incoming && e'.objects == e.objects
  {
    hide Valid;
  }

  lemma RequestKeepsObjects(y: Endpoint, b: byte)
    requires Valid(y) && Valid(ReceiveSignals(y, b)) && ReadHook(ReceiveSignals(y, b), b).Ok?
    ensures ReadHook(ReceiveSignals(y, b), b).value.objects == y.objects
  {
    hide RequestBit, AcknowledgeBit, Low6, ValidSizes, ValidSender, ValidReceiver;
    var y1 := ReceiveSignals(y, b);
    assert y1.objects == y.objects;
  }

  /** The side that writes or reads next, and the other one. */
  function Active(s: System): Endpoint {
    if s.phase.FpgaIn? || s.phase.FpgaOut? then s.fpga else s.mcu
  }

  function Other(s: System): Endpoint {
    if s.phase.FpgaIn? || s.phase.FpgaOut? then s.mcu else s.fpga
  }

  /** Framing, in every reachable state: what the byte about to be written looks like... */
  lemma FramingOut(s: System)
    requires Inv(s) && (s.phase.FpgaOut? || s.phase.McuOut?)
    ensures Valid(Active(s)) && Out(Active(s)).Ok?
    ensures var e, b := Active(s), Out(Active(s)).value.1;
            && (RequestBit(b) <==> !Choose(e).Data? && !Choose(e).Transfer?)
            && (AcknowledgeBit(b) <==> Other(s).vars.acknowledgeRequested)
            && (RequestBit(b) ==> Low6(b) == CodeOf(Choose(e)))
  {
    hide Taken, Sent, Out, Choose, RequestBit, AcknowledgeBit, Low6, Closing;
    if s.phase.FpgaOut? {
      FramedOut(s.mcu, s.fpga, s.mcuCopy, s.fpgaCopy);
    } else {
      FramedOut(s.fpga, s.mcu, s.fpgaCopy, s.mcuCopy);
    }
  }

  /** ... and what the byte about to be read is taken for. */
  lemma FramingIn(s: System)
    requires Inv(s) && (s.phase.FpgaIn? || s.phase.McuIn?) && Enabled(s, HalfTurn) && !Active(s).firstRun
    ensures Valid(Active(s)) && In(Active(s), s.wire).Ok?
    ensures var x, y, y' := Other(s), Active(s), In(Active(s), s.wire).value;
            && (RequestBit(s.wire) <==> x.wires.requestOut)
            && (y'.incoming < NUM_IDS <==> x.vars.acknowledgeRequested)
            && (x.vars.acknowledgeRequested ==>
                  y'.incoming == x.waiting && y'.rx.readLock[x.waiting] && y'.wires.ackOut)
            && (RequestBit(s.wire) ==> y'.objects == y.objects)
            && (RequestBit(s.wire) && !x.vars.acknowledgeRequested ==>
                  IsControl(Low6(s.wire)) && y'.vars == VarsAfter(y, s.wire))
  {
    hide Taken, In, Choose, RequestBit, AcknowledgeBit, Low6, Side, Synced, Coherent, DataInFlight, Handshake, Grants;
    hide VarsAfter;
    NoSighupYet(s);
    if s.phase.FpgaIn? {
      FramedIn(s.mcu, s.fpga, s.mcuCopy, s.fpgaCopy, s.wire);
    } else {
      FramedIn(s.fpga, s.mcu, s.fpgaCopy, s.mcuCopy, s.wire);
    }
  }

  /** The sixty-four codes: two are reserved, four are control codes and all others are object ids, each
      for exactly one purpose. */
  lemma CodesArePartitioned(code: byte)
    requires code < 64
    ensures IsControl(code) <==> 0x3B <= code <= 0x3E
    ensures 0 <= code - LOWER_STATES < NUM_IDS <==> code != 0 && code != 0x3F && !IsControl(code)
    ensures code >= LOWER_STATES ==> RequestedId(code) == code - LOWER_STATES
  {
  }

  // ----- The lowest id first -----

  /** Object j is to be sent, has not been granted, and no lower one is like it. */
  predicate LowestUnsynced(sync: seq<bool>, transfer: seq<bool>, j: nat) {
    && j < |sync| && j < |transfer| && sync[j] && !transfer[j]
    && forall k :: 0 <= k < j ==> !sync[k] || transfer[k]
  }

  predicate LowestRaised(flags: seq<bool>, j: nat) {
    j < |flags| && flags[j] && forall k :: 0 <= k < j ==> !flags[k]
  }

  /** A request names the lowest object to be sent that has not been granted, and is written exactly
      when there is one, no object is open and com_shutdown has not been sent. */
  lemma RequestsLowest(e: Endpoint)
    requires Valid(e) && !e.vars.acknowledgeRequested && Out(e).Ok?
    ensures var (e', b) := Out(e).value;
            && (e'.vars.acknowledgeRequested ==>
                  && e'.waiting < |e.objects| && LowestUnsynced(e.sync, e.tx.transfer, e'.waiting)
                  && RequestBit(b) && Low6(b) == e'.waiting + LOWER_STATES)
            && (e'.vars.acknowledgeRequested <==>
                  && !e.firstRun && !e.tx.lock && !e.vars.sentComShutdown
                  && exists j :: 0 <= j < |e.objects| && LowestUnsynced(e.sync, e.tx.transfer, j))
  {
    RequestIs(e);
    if Choose(e).Request? {
      SignalFramed(e);
      RequestWaits(e);
    }
    OutFrame(e);
    hide Out, Choose, ValidSizes, ValidSender, ValidReceiver, RequestBit, Low6;
  }

  lemma RequestIs(e: Endpoint)
    requires Valid(e)
    ensures Choose(e).Request? ==>
              Choose(e).id < |e.objects| <= NUM_IDS && LowestUnsynced(e.sync, e.tx.transfer, Choose(e).id)
    ensures Choose(e).Request? <==>
              && !e.firstRun && !e.tx.lock && !e.vars.sentComShutdown
              && exists j :: 0 <= j < |e.objects| && LowestUnsynced(e.sync, e.tx.transfer, j)
  {
    hide Lowest, IncomingShutdownQuery, OutgoingSighupQuery, WritesPending;
    var j := FirstUnsynced(e);
    assert j < |e.objects| ==> LowestUnsynced(e.sync, e.tx.transfer, j);
  }

  lemma RequestWaits(e: Endpoint)
    requires Valid(e) && Out(e).Ok? && Choose(e).Request?
    ensures Out(e).value.0.waiting == Choose(e).id
  {
    hide Choose, SetSignals, ValidSizes, ValidSender;
  }

  /** An object is opened for sending only if it is the lowest in transfer... */
  lemma SendsLowest(e: Endpoint)
    requires Valid(e) && !e.tx.lock && Out(e).Ok? && Out(e).value.0.tx != e.tx
    ensures LowestRaised(e.tx.transfer, Out(e).value.0.tx.origin)
  {
    hide ValidReceiver, Lowest, TransfersPending, IncomingShutdownQuery, OutgoingSighupQuery, WriteByte, SetSignals;
  }

  /** ... and for receiving only if it is the lowest with a read lock. */
  lemma ReceivesLowest(e: Endpoint, b: byte)
    requires Valid(e) && !e.rx.lock && ReadObject(e, b).Ok?
    ensures LowestRaised(e.rx.readLock, ReadObject(e, b).value.rx.dest)
  {
    hide ValidSender, Lowest, ReadByte, Store, Digits;
  }

  // ----- The end of the link -----

  /** No object below the count of them has its flag set. */
  predicate NoneOf(flags: seq<bool>, count: nat) {
    forall j :: 0 <= j < count && j < |flags| ==> !flags[j]
  }

  predicate Asks(e: Endpoint) {
    exists j :: 0 <= j < |e.objects| && LowestUnsynced(e.sync, e.tx.transfer, j)
  }

  /** Told to stop, with nothing to ask for, nothing due to it and nothing open, and, the MCU, told so by
      the other side. */
  predicate Closes(e: Endpoint) {
    var v := e.vars;
    && !e.firstRun && !e.tx.lock && !v.sentComShutdown && !Asks(e)
    && v.descendantsNotified && !v.acknowledgeRequested && !v.receivedAcknowledge
    && (e.role.Mcu? ==> v.receivedComShutdown)
  }

  /** com_shutdown leaves a side exactly then; sighup exactly when nothing is in transfer or being received
      either and the other side has closed as far as it has to. */
  lemma ClosesExactly(e: Endpoint)
    requires Valid(e) && Out(e).Ok?
    ensures var v, v' := e.vars, Out(e).value.0.vars;
            && (v'.sentComShutdown <==> v.sentComShutdown || Closes(e))
            && (v'.sentSighup <==>
                  || v.sentSighup
                  || (&& !e.firstRun && !e.tx.lock && !Closes(e) && (v.sentComShutdown || !Asks(e))
                      && NoneOf(e.tx.transfer, |e.objects|) && NoneOf(e.rx.readLock, |e.objects|)
                      && (if e.role.Fpga? then v.sentComShutdown && v.receivedComShutdown else v.receivedSighup)))
  {
    OutFrame(e);
    AsksIs(e);
    assert NoneOf(e.tx.transfer, |e.objects|) <==> !WritesPending(e);
    assert NoneOf(e.rx.readLock, |e.objects|) <==> !ReadsPending(e);
    hide Out, Valid, TransfersPending, WritesPending, ReadsPending, FirstTransfer, FirstUnsynced, NoneOf, Asks;
  }

  lemma AsksIs(e: Endpoint)
    requires Valid(e)
    ensures TransfersPending(e) <==> Asks(e)
  {
    if TransfersPending(e) {
      assert LowestUnsynced(e.sync, e.tx.transfer, FirstUnsynced(e));
    }
  }

  /** OUT aborts exactly when the object that is next to be asked for, or next to be sent, is being
      received. */
  lemma OutFailsExactly(e: Endpoint)
    requires Valid(e)
    ensures Out(e) == Err(SyncedStatusHasNotBeenOverridenWhenReadlockWasAcquired) <==>
              && !e.firstRun && !e.tx.lock && !e.vars.sentComShutdown
              && exists j :: 0 <= j < |e.objects| && LowestUnsynced(e.sync, e.tx.transfer, j) && e.rx.readLock[j]
    ensures Out(e) == Err(FoundATransferObjectWhichIsReadlocked) <==>
              && !e.firstRun && !e.tx.lock && (e.vars.sentComShutdown || !Asks(e)) && !Closes(e)
              && exists j :: 0 <= j < |e.objects| && LowestRaised(e.tx.transfer, j) && e.rx.readLock[j]
    ensures Out(e).Err? ==> Out(e).error in {SyncedStatusHasNotBeenOverridenWhenReadlockWasAcquired,
                                             FoundATransferObjectWhichIsReadlocked}
  {
    AsksIs(e);
    FirstOnes(e);
    assert e.tx.lock || e.tx.pos == 0;
    hide Valid, TransfersPending, FirstTransfer, FirstUnsynced, LowestUnsynced, LowestRaised, Asks, SendData;
    hide SetSignals, OutgoingSighupQuery;
  }

  lemma FirstOnes(e: Endpoint)
    requires Valid(e)
    ensures var j := FirstUnsynced(e);
            && (j < |e.objects| ==> LowestUnsynced(e.sync, e.tx.transfer, j))
            && forall k :: 0 <= k < |e.objects| && LowestUnsynced(e.sync, e.tx.transfer, k) ==> k == j
    ensures var j := FirstTransfer(e);
            && (j < |e.objects| ==> LowestRaised(e.tx.transfer, j))
            && forall k :: 0 <= k < |e.objects| && LowestRaised(e.tx.transfer, k) ==> k == j
  {
  }
}
