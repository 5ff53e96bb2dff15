/** The whole link: two endpoints, the byte between them and the two halves of each turn, with
    local writes and the stop request falling anywhere in between. */
module Mirror {
  import opened Results
  import opened Bits
  import opened Codec
  import opened Endpoint
  import opened Link
  import opened Pair

  datatype Phase = FpgaIn | FpgaOut | McuIn | McuOut

  /** `fpgaCopy` and `mcuCopy` record, for the proofs only, each object as it stood on the sending
      side when the other side last granted its transfer. */
  datatype System = System(
    fpga: Endpoint,
    mcu: Endpoint,
    wire: byte,
    phase: Phase,
    fpgaCopy: seq<seq<byte>>,
    mcuCopy: seq<seq<byte>>)

  datatype Action =
    | HalfTurn
    | LocalWrite(role: Role, id: nat, value: seq<byte>)
    | Notify

  function SideOf(s: System, role: Role): Endpoint {
    if role.Fpga? then s.fpga else s.mcu
  }

  function PeerOf(s: System, role: Role): Endpoint {
    if role.Fpga? then s.mcu else s.fpga
  }

  predicate ValidSystem(s: System) {
    && Valid(s.fpga) && Valid(s.mcu)
    && SameSizes(s.fpga.objects, s.mcu.objects)
    && SameSizes(s.fpga.objects, s.fpgaCopy)
    && SameSizes(s.mcu.objects, s.mcuCopy)
  }

  function Start(role: Role, objects: seq<seq<byte>>): Endpoint {
    var off := seq(NUM_IDS, _ => false);
    Endpoint(role, true, FRESH_VARS, Wires(false, false, false, false), NUM_IDS, NUM_IDS,
             Sender(false, NUM_IDS, 0, 0, Encoder([0, 0, 0], 0), off),
             Receiver(false, NUM_IDS, 0, 0, EMPTY, off),
             off, objects)
  }

  /** Both sides hold the same objects; the relay flips the first handshake towards the FPGA. */
  function Init(objects: seq<seq<byte>>, wire: byte): System {
    System(Start(Fpga, objects), Start(Mcu, objects), wire, FpgaIn, objects, objects)
  }

  /** What the source's own guards allow: `handshake_query` stops the FPGA after its sighup, and the
      resolver takes a local write only for an object that is free. */
  predicate Enabled(s: System, a: Action)
    requires ValidSystem(s)
  {
    match a
    case HalfTurn => !(s.phase.FpgaIn? && s.fpga.vars.sentSighup)
    case LocalWrite(role, id, value) => Writable(if role.Fpga? then s.fpga else s.mcu, id, value)
    case Notify => true
  }

  /** The missing guard: com_shutdown leaves only when no accepted object still waits to be sent. */
  predicate Timely(s: System, a: Action)
    requires ValidSystem(s)
  {
    && (a.HalfTurn? && s.phase.FpgaOut? && Choose(s.fpga).Shutdown? ==> None(s.fpga.tx.transfer))
    && (a.HalfTurn? && s.phase.McuOut? && Choose(s.mcu).Shutdown? ==> None(s.mcu.tx.transfer))
  }

  function Step(s: System, a: Action): (r: Result<System, Error>)
    requires ValidSystem(s) && Enabled(s, a)
  {
    match a
    case LocalWrite(Fpga, id, value) => Ok(s.(fpga := Written(s.fpga, id, value)))
    case LocalWrite(Mcu, id, value) => Ok(s.(mcu := Written(s.mcu, id, value)))
    case Notify => Ok(s.(fpga := StopNotifier(s.fpga)))
    case HalfTurn =>
      match s.phase
      case FpgaIn =>
        var e :- In(s.fpga, s.wire);
        Ok(s.(fpga := e, phase := FpgaOut, mcuCopy := CopyOnGrant(s.mcu, s.fpga, e, s.mcuCopy)))
      case FpgaOut =>
        var (e, b) :- Out(s.fpga);
        Ok(s.(fpga := e, wire := b, phase := McuIn))
      case McuIn =>
        var e :- In(s.mcu, s.wire);
        Ok(s.(mcu := e, phase := McuOut, fpgaCopy := CopyOnGrant(s.fpga, s.mcu, e, s.fpgaCopy)))
      case McuOut =>
        var (e, b) :- Out(s.mcu);
        Ok(s.(mcu := e, wire := b, phase := FpgaIn))
  }

  // ----- The joint invariant -----

  predicate InStep(s: System) {
    match s.phase
    case FpgaIn => Sent(s.mcu, s.fpga, s.mcuCopy, s.fpgaCopy, s.wire)
    case FpgaOut => Taken(s.mcu, s.fpga, s.mcuCopy, s.fpgaCopy)
    case McuIn => Sent(s.fpga, s.mcu, s.fpgaCopy, s.mcuCopy, s.wire)
    case McuOut => Taken(s.fpga, s.mcu, s.fpgaCopy, s.mcuCopy)
  }

  /** How far the shutdown handshake is. */
  predicate Closing(s: System) {
    && s.fpga.role.Fpga? && s.mcu.role.Mcu?
    && (s.mcu.vars.sentComShutdown ==> s.mcu.vars.receivedComShutdown)
    && (s.mcu.vars.receivedComShutdown ==> s.mcu.vars.descendantsNotified)
    && (s.mcu.vars.sentSighup ==> s.fpga.vars.sentSighup)
    && (s.fpga.vars.sentSighup ==>
          && s.fpga.vars.sentComShutdown && s.fpga.vars.receivedComShutdown
          && !s.fpga.vars.acknowledgeRequested
          && None(s.fpga.tx.transfer) && None(s.fpga.rx.readLock))
    && (match s.phase
        case FpgaIn => s.fpga.vars.sentSighup ==> s.mcu.vars.sentSighup
        case FpgaOut => !s.fpga.vars.sentSighup
        case McuIn => !s.mcu.vars.receivedSighup && !s.mcu.vars.sentSighup
        case McuOut => !s.mcu.vars.sentSighup)
  }

  predicate Inv(s: System) {
    ValidSystem(s) && InStep(s) && Closing(s)
  }

  lemma Roles(s: System)
    requires Inv(s)
    ensures s.fpga.role.Fpga? && s.mcu.role.Mcu?
  {
    hide ValidSystem, InStep;
  }

  lemma InitInv(objects: seq<seq<byte>>, wire: byte)
    requires ValidSizes(objects)
    ensures Inv(Init(objects, wire))
  {
    var s := Init(objects, wire);
    assert s.fpga.rx.readLock == s.mcu.tx.transfer == s.mcu.rx.readLock == s.fpga.tx.transfer;
  }

  // ----- What the halves of a turn leave alone -----

  /** Reading can only raise the received flags and only power-on clears anything. */
  predicate Progressed(e: Endpoint, e': Endpoint, poweron: bool) {
    && e'.role == e.role && e'.firstRun == e.firstRun
    && (e'.vars.sentSighup ==> e.vars.sentSighup)
    && (e'.vars.sentComShutdown ==> e.vars.sentComShutdown)
    && (e.vars.receivedComShutdown && !poweron ==> e'.vars.receivedComShutdown)
    && (e.vars.descendantsNotified && !poweron ==> e'.vars.descendantsNotified)
    && (e'.vars.receivedComShutdown && e.role.Mcu? ==> e.vars.receivedComShutdown || e'.vars.descendantsNotified)
    && (e'.vars.descendantsNotified ==>
          e.vars.descendantsNotified || (e'.vars.receivedComShutdown && !e.vars.receivedComShutdown))
  }

  lemma ReadHookFrame(e: Endpoint, b: byte)
    requires Valid(e) && ReadHook(e, b).Ok?
    ensures Progressed(e, ReadHook(e, b).value, Low6(b) == POWERON)
  {
    hide Valid, Low6;
  }

  lemma GrantFrame(e: Endpoint)
    requires Valid(e) && TransferHook(e).Ok?
    ensures var e' := TransferHook(e).value;
            e'.role == e.role && e'.firstRun == e.firstRun && e'.vars == e.vars
  {
    hide Valid;
  }

  lemma AcknowledgeFrame(e: Endpoint)
    requires Valid(e) && Acknowledge(e).Ok?
    ensures var e' := Acknowledge(e).value;
            && e'.role == e.role && e'.firstRun == e.firstRun
            && e'.vars == e.vars.(acknowledgeRequested := e'.vars.acknowledgeRequested)
  {
    hide Valid;
  }

  lemma HooksFrame(e: Endpoint)
    requires Valid(e) && TransferHook(e).Ok? && Acknowledge(TransferHook(e).value).Ok?
    ensures var e' := Acknowledge(TransferHook(e).value).value;
            && e'.role == e.role && e'.firstRun == e.firstRun
            && e'.vars == e.vars.(acknowledgeRequested := e'.vars.acknowledgeRequested)
  {
    hide Valid, TransferHook, Acknowledge;
    GrantFrame(e);
    AcknowledgeFrame(TransferHook(e).value);
  }

  lemma InFrame(e: Endpoint, b: byte)
    requires Valid(e) && In(e, b).Ok?
    ensures Progressed(e, In(e, b).value, !e.firstRun && RequestBit(b) && Low6(b) == POWERON)
  {
    hide ReadHook, TransferHook, Acknowledge, TakeByte, OpenRead, Low6, RequestBit, AcknowledgeBit,
         ValidSizes, ValidSender, ValidReceiver;
    if !e.firstRun {
      var e1 := ReceiveSignals(e, b);
      if e1.vars.receivedRequest {
        ReadHookFrame(e1, b);
        HooksFrame(ReadHook(e1, b).value);
      } else {
        HooksFrame(ReadObject(e1, b).value);
      }
    }
  }

  lemma OutFrame(e: Endpoint)
    requires Valid(e) && Out(e).Ok?
    ensures var e' := Out(e).value.0;
            && e'.role == e.role && !e'.firstRun
            && e'.vars.sentSighup == (e.vars.sentSighup || Choose(e).Sighup?)
            && e'.vars.sentComShutdown == (e.vars.sentComShutdown || Choose(e).Shutdown?)
            && e'.vars.receivedComShutdown == e.vars.receivedComShutdown
            && e'.vars.receivedSighup == e.vars.receivedSighup
            && e'.vars.descendantsNotified == e.vars.descendantsNotified
            && e'.vars.acknowledgeRequested == (e.vars.acknowledgeRequested || Choose(e).Request?)
            && e'.rx == e.rx
            && (Choose(e).Sighup? ==> e'.tx == e.tx)
  {
    hide SendData, SetSignals, TransfersPending, WritesPending, IncomingShutdownQuery, OutgoingSighupQuery;
    match Choose(e)
    case Data => SendDataFrame(e.(waiting := NUM_IDS));
    case Transfer(j) =>
      if !e.rx.readLock[j] && e.tx.pos == 0 {
        SendDataFrame(e.(waiting := NUM_IDS, tx := Opening(e.tx, j)));
      }
    case _ =>
  }

  lemma SendDataFrame(e: Endpoint)
    requires Valid(e) && e.tx.lock
    ensures SendData(e).0 == e.(tx := SendData(e).0.tx)
  {
    hide ValidSizes, ValidSender, ValidReceiver, WriteObject;
  }

  lemma ChooseFrame(e: Endpoint)
    requires Valid(e)
    ensures Choose(e).Sighup? ==> OutgoingSighupQuery(e) && !e.firstRun
    ensures Choose(e).Shutdown? ==> IncomingShutdownQuery(e)
    ensures Choose(e).PowerOn? <==> e.firstRun
  {
    hide Valid, OutgoingSighupQuery, IncomingShutdownQuery;
  }

  // ----- The invariant is kept -----

  lemma FpgaInKeeps(s: System)
    requires Inv(s) && s.phase.FpgaIn? && !s.fpga.vars.sentSighup
    ensures Step(s, HalfTurn).Ok? && Inv(Step(s, HalfTurn).value)
  {
    hide In, Sent, Taken, None;
    assert !s.fpga.vars.receivedSighup by { SentFlags(s.mcu, s.fpga, s.mcuCopy, s.fpgaCopy, s.wire); }
    InKeeps(s.mcu, s.fpga, s.mcuCopy, s.fpgaCopy, s.wire);
    InFrame(s.fpga, s.wire);
    TakenSizes(s.mcu, In(s.fpga, s.wire).value, Step(s, HalfTurn).value.mcuCopy, s.fpgaCopy);
  }

  lemma SentFlags(x: Endpoint, y: Endpoint, copyX: seq<seq<byte>>, copyY: seq<seq<byte>>, b: byte)
    requires Sent(x, y, copyX, copyY, b)
    ensures x.vars.receivedSighup == y.vars.sentSighup
    ensures y.vars.receivedSighup ==> x.vars.sentSighup
    ensures x.vars.receivedComShutdown == y.vars.sentComShutdown
    ensures y.vars.receivedComShutdown ==> x.vars.sentComShutdown
    ensures SameSizes(x.objects, y.objects) && SameSizes(x.objects, copyX) && SameSizes(y.objects, copyY)
    ensures Valid(x) && Valid(y)
  {
    hide Synced, Coherent, Exclusive, Copied, None, DataInFlight, ValidSizes, ValidSender, ValidReceiver,
         RequestBit, AcknowledgeBit, Low6;
  }

  lemma NoSighupYet(s: System)
    requires Inv(s)
    ensures s.phase.McuIn? ==> !s.mcu.vars.receivedSighup
    ensures s.phase.FpgaIn? && !s.fpga.vars.sentSighup ==> !s.fpga.vars.receivedSighup
  {
    hide Sent, Taken, None;
    if s.phase.FpgaIn? {
      SentFlags(s.mcu, s.fpga, s.mcuCopy, s.fpgaCopy, s.wire);
    }
  }

  lemma TakenSizes(x: Endpoint, y: Endpoint, copyX: seq<seq<byte>>, copyY: seq<seq<byte>>)
    requires Taken(x, y, copyX, copyY)
    ensures SameSizes(x.objects, y.objects) && SameSizes(x.objects, copyX) && SameSizes(y.objects, copyY)
    ensures Valid(x) && Valid(y)
  {
    hide Synced, Coherent, Exclusive, Copied, None, ValidSizes, ValidSender, ValidReceiver;
  }

  lemma NonePending(e: Endpoint, copy: seq<seq<byte>>)
    requires Side(e, copy)
    ensures !WritesPending(e) <==> None(e.tx.transfer)
    ensures !ReadsPending(e) <==> None(e.rx.readLock)
    ensures None(e.tx.transfer) ==> !e.tx.lock
  {
  }

  lemma FpgaOutKeeps(s: System)
    requires Inv(s) && s.phase.FpgaOut? && Timely(s, HalfTurn)
    ensures Step(s, HalfTurn).Ok? && Inv(Step(s, HalfTurn).value)
  {
    hide Out, Sent, None, Choose, Synced, Coherent, Side, ReadsPending, WritesPending;
    TakenSizes(s.mcu, s.fpga, s.mcuCopy, s.fpgaCopy);
    OutKeeps(s.mcu, s.fpga, s.mcuCopy, s.fpgaCopy);
    OutFrame(s.fpga);
    ChooseFrame(s.fpga);
    NonePending(s.fpga, s.fpgaCopy);
    var s' := Step(s, HalfTurn).value;
    SentFlags(s'.fpga, s'.mcu, s'.fpgaCopy, s'.mcuCopy, s'.wire);
  }

  lemma PowerOnComesFirst(x: Endpoint, y: Endpoint, copyX: seq<seq<byte>>, copyY: seq<seq<byte>>, b: byte)
    requires Sent(x, y, copyX, copyY, b)
    requires !y.firstRun && RequestBit(b) && Low6(b) == POWERON
    ensures Blank(y)
  {
    hide Synced, Coherent, Exclusive, Copied, None, DataInFlight, ValidSizes, ValidSender, ValidReceiver,
         RequestBit, AcknowledgeBit, Low6;
  }

  lemma McuInKeeps(s: System)
    requires Inv(s) && s.phase.McuIn?
    ensures Step(s, HalfTurn).Ok? && Inv(Step(s, HalfTurn).value)
  {
    hide In, Sent, Taken, None, RequestBit, Low6;
    InKeeps(s.fpga, s.mcu, s.fpgaCopy, s.mcuCopy, s.wire);
    InFrame(s.mcu, s.wire);
    TakenSizes(s.fpga, In(s.mcu, s.wire).value, Step(s, HalfTurn).value.fpgaCopy, s.mcuCopy);
    if !s.mcu.firstRun && RequestBit(s.wire) && Low6(s.wire) == POWERON {
      PowerOnComesFirst(s.fpga, s.mcu, s.fpgaCopy, s.mcuCopy, s.wire);
    }
  }

  /** Once the FPGA has sent sighup, nothing but the answer is left for the MCU to send. */
  lemma McuAnswers(s: System)
    requires Inv(s) && s.phase.McuOut? && s.fpga.vars.sentSighup
    ensures Choose(s.mcu) == Sighup
    ensures None(s.mcu.tx.transfer) && None(s.mcu.rx.readLock)
  {
    hide Synced, Coherent, Copied, ValidSizes, ValidSender, ValidReceiver;
    assert s.fpga.rx.readLock == s.mcu.tx.transfer && s.mcu.rx.readLock == s.fpga.tx.transfer;
    NonePending(s.mcu, s.mcuCopy);
  }

  lemma McuOutKeeps(s: System)
    requires Inv(s) && s.phase.McuOut? && Timely(s, HalfTurn)
    ensures Step(s, HalfTurn).Ok? && Inv(Step(s, HalfTurn).value)
  {
    hide Out, Sent, None, Choose, Synced, Coherent, Side, ReadsPending, WritesPending;
    TakenSizes(s.fpga, s.mcu, s.fpgaCopy, s.mcuCopy);
    OutKeeps(s.fpga, s.mcu, s.fpgaCopy, s.mcuCopy);
    OutFrame(s.mcu);
    ChooseFrame(s.mcu);
    if s.fpga.vars.sentSighup {
      McuAnswers(s);
    }
    var s' := Step(s, HalfTurn).value;
    SentFlags(s'.mcu, s'.fpga, s'.mcuCopy, s'.fpgaCopy, s'.wire);
  }

  lemma FpgaWriteKeepsInv(s: System, id: nat, value: seq<byte>)
    requires Inv(s) && Writable(s.fpga, id, value)
    ensures Inv(s.(fpga := Written(s.fpga, id, value)))
  {
    hide Sent, Taken, None;
    match s.phase
    case FpgaIn => ReaderWriteKeepsSent(s.mcu, s.fpga, s.mcuCopy, s.fpgaCopy, s.wire, id, value);
    case FpgaOut => ReaderWriteKeepsTaken(s.mcu, s.fpga, s.mcuCopy, s.fpgaCopy, id, value);
    case McuIn => SenderWriteKeepsSent(s.fpga, s.mcu, s.fpgaCopy, s.mcuCopy, s.wire, id, value);
    case McuOut => SenderWriteKeepsTaken(s.fpga, s.mcu, s.fpgaCopy, s.mcuCopy, id, value);
  }

  lemma McuWriteKeepsInv(s: System, id: nat, value: seq<byte>)
    requires Inv(s) && Writable(s.mcu, id, value)
    ensures Inv(s.(mcu := Written(s.mcu, id, value)))
  {
    hide Sent, Taken, None;
    match s.phase
    case FpgaIn => SenderWriteKeepsSent(s.mcu, s.fpga, s.mcuCopy, s.fpgaCopy, s.wire, id, value);
    case FpgaOut => SenderWriteKeepsTaken(s.mcu, s.fpga, s.mcuCopy, s.fpgaCopy, id, value);
    case McuIn => ReaderWriteKeepsSent(s.fpga, s.mcu, s.fpgaCopy, s.mcuCopy, s.wire, id, value);
    case McuOut => ReaderWriteKeepsTaken(s.fpga, s.mcu, s.fpgaCopy, s.mcuCopy, id, value);
  }

  lemma NotifyKeepsInv(s: System)
    requires Inv(s)
    ensures Step(s, Notify).Ok? && Inv(Step(s, Notify).value)
  {
    hide Sent, Taken, None;
    NotifyKeeps(s.mcu, s.fpga, s.mcuCopy, s.fpgaCopy, s.wire);
    NotifyKeeps(s.fpga, s.mcu, s.fpgaCopy, s.mcuCopy, s.wire);
  }

  /** No step aborts, and every step keeps the invariant. */
  lemma StepKeeps(s: System, a: Action)
    requires Inv(s) && Enabled(s, a) && Timely(s, a)
    ensures Step(s, a).Ok? && Inv(Step(s, a).value)
  {
    hide Inv, Timely, In, Out, Writable;
    match a
    case LocalWrite(Fpga, id, value) => FpgaWriteKeepsInv(s, id, value);
    case LocalWrite(Mcu, id, value) => McuWriteKeepsInv(s, id, value);
    case Notify => NotifyKeepsInv(s);
    case HalfTurn =>
      match s.phase
      case FpgaIn => FpgaInKeeps(s);
      case FpgaOut => FpgaOutKeeps(s);
      case McuIn => McuInKeeps(s);
      case McuOut => McuOutKeeps(s);
  }
}
