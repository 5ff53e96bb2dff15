/** The shutdown handshake: what is left when it is over, exactly when it breaks the framing, and a
    policy of the clients under which it never does. */
module Shutdown {
  import opened Results
  import opened Bits
  import opened Codec
  import opened Endpoint
  import opened Link
  import opened Pair
  import opened Mirror
  import opened Safety

  // ----- Clean shutdown -----

  /** Clients stop writing on a side once it has sent com_shutdown. */
  predicate Quiet(s: System, a: Action) {
    a.LocalWrite? ==> !(if a.role.Fpga? then s.fpga else s.mcu).vars.sentComShutdown
  }

  /** A side that has sent com_shutdown has nothing left to synchronise. */
  predicate Settled(s: System) {
    && (s.fpga.vars.sentComShutdown ==> None(s.fpga.sync))
    && (s.mcu.vars.sentComShutdown ==> None(s.mcu.sync))
  }

  lemma InOnlyClearsSync(e: Endpoint, b: byte)
    requires Valid(e) && In(e, b).Ok?
    ensures None(e.sync) ==> None(In(e, b).value.sync)
  {
    hide ReadHook, ReceiveSignals, OpenRead, TakeByte, ValidSizes, ValidSender, ValidReceiver;
    if !e.firstRun {
      var e1 := ReceiveSignals(e, b);
      SignalsKeepSync(e, b);
      if e1.vars.receivedRequest {
        HookKeepsSync(e1, b);
      }
    }
  }

  lemma SignalsKeepSync(e: Endpoint, b: byte)
    ensures ReceiveSignals(e, b).sync == e.sync
    ensures Valid(e) ==> Valid(ReceiveSignals(e, b))
  {
  }

  lemma HookKeepsSync(e: Endpoint, b: byte)
    requires Valid(e) && ReadHook(e, b).Ok?
    ensures ReadHook(e, b).value.sync == e.sync
  {
    hide Low6, ValidSizes, ValidSender, ValidReceiver;
  }

  lemma OutKeepsSync(e: Endpoint, copy: seq<seq<byte>>)
    requires Side(e, copy) && Out(e).Ok?
    ensures Out(e).value.0.sync == e.sync
    ensures Choose(e).Shutdown? ==> forall j :: 0 <= j < NUM_IDS && e.sync[j] ==> e.tx.transfer[j]
    ensures Choose(e).Shutdown? ==> None(e.sync)
  {
    hide WriteObject, Copied, ValidSender, ValidReceiver, WritesPending, ReadsPending;
    if Choose(e).Shutdown? {
      assert !TransfersPending(e);
      forall j | 0 <= j < NUM_IDS
        ensures !e.sync[j]
      {
        if j < |e.objects| {
          assert !Unsynced(e.sync, e.tx.transfer)[j];
        }
      }
    }
  }

  lemma SettledKeeps(s: System, a: Action, s': System)
    requires Inv(s) && Next(s, a, s') && Settled(s) && Quiet(s, a)
    ensures Inv(s') && Settled(s')
  {
    hide In, Out, None, Timely, Choose, Copied, Exclusive, Synced, Coherent, ValidSizes, ValidSender,
         ValidReceiver, Closing, Written, Flight, RequestBitClear;
    StepKeeps(s, a);
    if a.HalfTurn? {
      match s.phase
      case FpgaIn =>
        InOnlyClearsSync(s.fpga, s.wire);
        InFrame(s.fpga, s.wire);
      case FpgaOut =>
        OutKeepsSync(s.fpga, s.fpgaCopy);
        OutFrame(s.fpga);
      case McuIn =>
        InOnlyClearsSync(s.mcu, s.wire);
        InFrame(s.mcu, s.wire);
      case McuOut =>
        OutKeepsSync(s.mcu, s.mcuCopy);
        OutFrame(s.mcu);
    } else if a.LocalWrite? {
      WriteKeepsVars(if a.role.Fpga? then s.fpga else s.mcu, a.id, a.value);
    }
  }

  lemma WriteKeepsVars(e: Endpoint, j: nat, value: seq<byte>)
    requires Valid(e) && Writable(e, j, value)
    ensures Written(e, j, value).vars == e.vars
  {
  }

  /** A run in which clients respect `Quiet`. */
  ghost predicate QuietRun(objects: seq<seq<byte>>, wire: byte, ss: seq<System>, acts: seq<Action>) {
    Run(objects, wire, ss, acts) && forall i :: 0 <= i < |acts| ==> Quiet(ss[i], acts[i])
  }

  lemma {:induction false} RunSettled(objects: seq<seq<byte>>, wire: byte, ss: seq<System>, acts: seq<Action>, k: nat)
    requires QuietRun(objects, wire, ss, acts) && k < |ss|
    ensures Inv(ss[k]) && Settled(ss[k])
  {
    hide Inv, Step, Enabled, Timely, Quiet;
    RunInv(objects, wire, ss, acts, k);
    if k > 0 {
      RunSettled(objects, wire, ss, acts, k - 1);
      assert Next(ss[k - 1], acts[k - 1], ss[k]);
      assert Quiet(ss[k - 1], acts[k - 1]);
      SettledKeeps(ss[k - 1], acts[k - 1], ss[k]);
    }
  }

  /** Nothing is left half done on this side. */
  predicate AtRest(e: Endpoint)
    requires Valid(e)
  {
    && None(e.sync) && None(e.tx.transfer) && None(e.rx.readLock)
    && !e.tx.lock && e.tx.pos == 0 && e.tx.phase == 0
    && !e.rx.lock && e.rx.pos == 0 && e.rx.phase == 0 && e.rx.dec == EMPTY
  }

  /** Data in flight finds its object read-locked. */
  lemma FlightLocks(x: Endpoint, y: Endpoint, copyX: seq<seq<byte>>, b: byte)
    requires Side(x, copyX) && Valid(y) && SameSizes(x.objects, y.objects) && Flight(x, y, copyX, b)
    ensures !x.wires.requestOut ==> exists d :: 0 <= d < NUM_IDS && y.rx.readLock[d]
  {
    hide Copied, Assembled, Holds, Sextet, Blank, Exclusive, RequestBit, AcknowledgeBit, Low6;
    var d := Opened(y.rx, |y.objects|).dest;
    assert !x.wires.requestOut ==> d < NUM_IDS && y.rx.readLock[d];
  }

  lemma NoGrants(e: Endpoint)
    requires Valid(e) && (e.vars.acknowledgeRequested ==> e.waiting < NUM_IDS)
    ensures None(Grants(e)) <==> None(e.tx.transfer) && !e.vars.acknowledgeRequested
  {
    hide ValidSizes, ValidReceiver;
    assert e.vars.acknowledgeRequested ==> Grants(e)[e.waiting];
    assert forall j :: 0 <= j < NUM_IDS && e.tx.transfer[j] ==> Grants(e)[j];
  }

  /** With no read lock on either side, both are at rest but for their sync requests. */
  lemma UnlockedSent(x: Endpoint, y: Endpoint, copyX: seq<seq<byte>>, copyY: seq<seq<byte>>, b: byte)
    requires Sent(x, y, copyX, copyY, b) && !y.firstRun
    requires None(x.rx.readLock) && None(y.rx.readLock)
    ensures None(x.sync) ==> AtRest(x)
    ensures None(y.sync) ==> AtRest(y)
  {
    hide Copied, Coherent, RequestBit, AcknowledgeBit, Low6, Assembled, Holds, Sextet, Blank, Handshake;
    assert None(y.tx.transfer) && !y.vars.acknowledgeRequested by {
      assert x.rx.readLock == Grants(y);
      NoGrants(y);
    }
    assert x.wires.requestOut by {
      FlightLocks(x, y, copyX, b);
    }
  }

  lemma UnlockedTaken(x: Endpoint, y: Endpoint, copyX: seq<seq<byte>>, copyY: seq<seq<byte>>)
    requires Taken(x, y, copyX, copyY)
    requires None(x.rx.readLock) && None(y.rx.readLock)
    ensures None(x.sync) ==> AtRest(x)
    ensures None(y.sync) ==> AtRest(y)
  {
    hide Copied, Coherent, Assembled, Holds, Blank;
    assert None(x.tx.transfer) by {
      NoGrants(x);
      assert y.rx.readLock == Grants(x);
    }
  }

  lemma EndsAtRest(s: System)
    requires Inv(s) && Settled(s) && s.fpga.vars.sentSighup
    ensures AtRest(s.fpga) && AtRest(s.mcu)
  {
    hide Copied, Coherent, Exclusive, Synced, DataInFlight, ValidSizes, ValidSender, ValidReceiver,
         RequestBit, AcknowledgeBit, Low6, AtRest;
    match s.phase
    case FpgaIn =>
      assert s.mcu.rx.readLock == s.fpga.tx.transfer;
      UnlockedSent(s.mcu, s.fpga, s.mcuCopy, s.fpgaCopy, s.wire);
    case FpgaOut =>
    case McuIn =>
      assert s.mcu.rx.readLock == s.fpga.tx.transfer;
      UnlockedSent(s.fpga, s.mcu, s.fpgaCopy, s.mcuCopy, s.wire);
    case McuOut =>
      assert s.mcu.rx.readLock == s.fpga.tx.transfer;
      UnlockedTaken(s.fpga, s.mcu, s.fpgaCopy, s.mcuCopy);
  }

  /** Clean shutdown: once the FPGA has sent sighup, both sides are at rest, their memories are
      equal, the MCU has answered or will answer with its very next byte, and nothing moves after. */
  lemma CleanShutdown(objects: seq<seq<byte>>, wire: byte, ss: seq<System>, acts: seq<Action>, k: nat)
    requires QuietRun(objects, wire, ss, acts) && k < |ss|
    requires ss[k].fpga.vars.sentSighup
    ensures var s := ss[k];
            && ValidSystem(s)
            && AtRest(s.fpga) && AtRest(s.mcu)
            && s.fpga.objects == s.mcu.objects
            && !s.phase.FpgaOut?
            && (s.phase.McuOut? ==> Choose(s.mcu) == Sighup)
            && (s.phase.FpgaIn? ==> s.mcu.vars.sentSighup && !Enabled(s, HalfTurn))
  {
    hide InStep, Settled, Coherent, Choose;
    RunSettled(objects, wire, ss, acts, k);
    var s := ss[k];
    EndsAtRest(s);
    MirrorsCohere(s);
    if s.phase.McuOut? {
      McuAnswers(s);
    }
  }

  /** When com_shutdown reaches the MCU nothing is being received there, so the notifier it stops
      interrupts no read. */
  lemma ShutdownInterruptsNoRead(s: System)
    requires Inv(s) && s.phase.McuIn? && !s.mcu.firstRun
    requires RequestBit(s.wire) && Low6(s.wire) == SHUTDOWN
    ensures None(s.mcu.rx.readLock) && !s.mcu.vars.receivedComShutdown
  {
    hide Copied, Coherent, ValidSizes, ValidSender, ValidReceiver, Synced, DataInFlight, RequestBit,
         AcknowledgeBit, Low6;
  }

  // ----- Exactly when com_shutdown breaks the framing -----

  /** e has sent com_shutdown and read the peer's next byte b, which is no power-on. The next thing
      it writes is object data under a raised bit 7, to be taken for a request, if and only if an
      accepted object was still waiting when com_shutdown was sent. */
  lemma ShutdownGuard(e: Endpoint, copy: seq<seq<byte>>, b: byte)
    requires Side(e, copy) && Choose(e).Shutdown?
    requires Out(e).Ok? && In(Out(e).value.0, b).Ok?
    requires RequestBit(b) ==> Low6(b) != POWERON
    ensures var e2 := In(Out(e).value.0, b).value;
            && Out(e2).Ok?
            && (!None(e.tx.transfer) ==> Choose(e2).Transfer? && RequestBit(Out(e2).value.1))
            && (None(e.tx.transfer) ==> !Choose(e2).Data? && !Choose(e2).Transfer?)
  {
    hide ReadByte, WriteObject, RequestBit, Low6, AcknowledgeBit, SetSignals, TransfersPending, ReadsPending,
         Coherent, Copied;
    hide In;
    var e1 := Out(e).value.0;
    var e2 := In(e1, b).value;
    AfterShutdown(e1, b);
    assert e2.tx == e.tx && !e.tx.lock;
    assert None(e.tx.transfer) <==> !WritesPending(e2) by { NonePending(e, copy); }
    if WritesPending(e2) {
      var j := FirstTransfer(e2);
      assert e2.tx.transfer[j];
      DataSignals(Opening(e2.tx, j), e2.objects, e2.wires);
    }
  }

  lemma AfterShutdown(e: Endpoint, b: byte)
    requires Valid(e) && !e.firstRun && In(e, b).Ok?
    requires e.wires.requestOut && !e.vars.acknowledgeRequested && e.vars.sentComShutdown
    requires RequestBit(b) ==> Low6(b) != POWERON
    requires forall j :: 0 <= j < NUM_IDS ==> !(e.tx.transfer[j] && e.rx.readLock[j])
    ensures var e' := In(e, b).value;
            && e'.tx == e.tx && e'.wires.requestOut && !e'.firstRun && e'.vars.sentComShutdown
            && |e'.objects| == |e.objects| && |e'.rx.readLock| == NUM_IDS
            && (forall j :: 0 <= j < NUM_IDS ==> !(e.tx.transfer[j] && e'.rx.readLock[j]))
  {
    hide ReadByte, RequestBit, Low6, AcknowledgeBit, ReadHook, TakeByte, ValidSizes, ValidSender;
    var e1 := ReceiveSignals(e, b);
    SignalsKeepSync(e, b);
    if e1.vars.receivedRequest {
      HookAfterShutdown(e1, b);
    } else {
      TakeKeepsLocks(e1, b);
    }
  }

  lemma HookAfterShutdown(e: Endpoint, b: byte)
    requires Valid(e) && ReadHook(e, b).Ok? && Low6(b) != POWERON
    ensures var e' := ReadHook(e, b).value;
            && e' == e.(vars := e'.vars, incoming := e'.incoming)
            && e'.vars.sentComShutdown == e.vars.sentComShutdown
            && e'.vars.acknowledgeRequested == e.vars.acknowledgeRequested
            && e'.vars.receivedAcknowledge == e.vars.receivedAcknowledge
  {
    hide Low6, Valid;
  }

  lemma TakeKeepsLocks(e: Endpoint, b: byte)
    requires Valid(e) && ReadObject(e, b).Ok?
    ensures var e' := ReadObject(e, b).value;
            && e' == e.(rx := e'.rx, objects := e'.objects)
            && |e'.objects| == |e.objects|
            && |e'.rx.readLock| == NUM_IDS
            && forall j :: 0 <= j < NUM_IDS && e'.rx.readLock[j] ==> e.rx.readLock[j]
  {
    hide ReadByte, Store, Digits, ValidSizes;
  }

  // ----- A policy under which com_shutdown is always in time -----

  /** The client of e wants object j sent, or it is being sent. */
  predicate Wants(e: Endpoint, j: nat)
    requires Valid(e) && j < NUM_IDS
  {
    e.sync[j] || e.tx.transfer[j]
  }

  predicate Single(e: Endpoint)
    requires Valid(e)
  {
    forall i, j :: 0 <= i < NUM_IDS && 0 <= j < NUM_IDS && Wants(e, i) && Wants(e, j) ==> i == j
  }

  /** At most one outstanding object, and an accepted one is being sent or just being accepted. */
  predicate Narrow(e: Endpoint, accepted: bool)
    requires Valid(e)
  {
    Single(e) && (None(e.tx.transfer) || e.tx.lock || (accepted && e.vars.receivedAcknowledge))
  }

  predicate NarrowSystem(s: System)
    requires ValidSystem(s)
  {
    Narrow(s.fpga, s.phase.FpgaOut?) && Narrow(s.mcu, s.phase.McuOut?)
  }

  predicate WantsNothing(e: Endpoint)
    requires Valid(e)
  {
    forall j :: 0 <= j < NUM_IDS ==> !Wants(e, j)
  }

  /** Clients write an object only when their side has none outstanding. */
  predicate Frugal(s: System, a: Action)
    requires ValidSystem(s)
  {
    a.LocalWrite? ==> WantsNothing(if a.role.Fpga? then s.fpga else s.mcu)
  }

  lemma NarrowIsTimely(s: System, a: Action)
    requires ValidSystem(s) && NarrowSystem(s)
    ensures Timely(s, a)
  {
    hide ValidSizes, ValidSender, ValidReceiver, TransfersPending, WritesPending, Single, None;
  }

  lemma NarrowIn(x: Endpoint, y: Endpoint, copyX: seq<seq<byte>>, copyY: seq<seq<byte>>, b: byte)
    requires Sent(x, y, copyX, copyY, b) && !y.vars.receivedSighup && Narrow(y, false)
    ensures In(y, b).Ok? && Narrow(In(y, b).value, true)
  {
    hide Synced, Flight, Handshake, Coherent, Copied, ValidSizes, ValidSender, ValidReceiver;
    if !y.firstRun {
      hide In;
      InEffect(x, y, copyX, copyY, b);
      var y' := In(y, b).value;
      forall j | 0 <= j < NUM_IDS && Wants(y', j)
        ensures Wants(y, j)
      {
      }
    }
  }

  lemma NarrowOut(e: Endpoint, copy: seq<seq<byte>>)
    requires Side(e, copy) && Out(e).Ok? && Narrow(e, true)
    ensures Narrow(Out(e).value.0, false)
  {
    hide WriteByte, SetSignals, ReadsPending, OutgoingSighupQuery, ValidReceiver, Copied;
    var e' := Out(e).value.0;
    OutTransfers(e);
    assert e'.sync == e.sync;
    forall j | 0 <= j < NUM_IDS && Wants(e', j)
      ensures Wants(e, j)
    {
    }
    NarrowSend(e, copy);
  }

  lemma OutTransfers(e: Endpoint)
    requires Valid(e) && Out(e).Ok?
    ensures var e' := Out(e).value.0;
            && e'.sync == e.sync
            && (forall j :: 0 <= j < NUM_IDS && e'.tx.transfer[j] ==> e.tx.transfer[j])
            && (!Choose(e).Data? && !Choose(e).Transfer? ==> e'.tx == e.tx)
            && (Choose(e).Transfer? ==> e'.tx.lock)
            && (Choose(e).Data? ==> e'.tx.lock || e'.tx.transfer == e.tx.transfer[e.tx.origin := false])
  {
    hide WriteByte, Choose, ValidReceiver;
  }

  lemma NarrowSend(e: Endpoint, copy: seq<seq<byte>>)
    requires Side(e, copy) && Out(e).Ok? && Narrow(e, true)
    ensures None(Out(e).value.0.tx.transfer) || Out(e).value.0.tx.lock
  {
    hide Out, ReadsPending, OutgoingSighupQuery, ValidReceiver, Copied;
    OutTransfers(e);
    var e' := Out(e).value.0;
    match Choose(e)
    case Data =>
      if !e'.tx.lock {
        forall j | 0 <= j < NUM_IDS
          ensures !e'.tx.transfer[j]
        {
          assert Wants(e, e.tx.origin);
          assert e.tx.transfer[j] ==> Wants(e, j);
        }
      }
    case Request(i) =>
      forall j | 0 <= j < NUM_IDS
        ensures !e.tx.transfer[j]
      {
        assert Unsynced(e.sync, e.tx.transfer)[i] && Wants(e, i);
        assert e.tx.transfer[j] ==> Wants(e, j);
      }
    case Transfer(_) =>
    case _ =>
      NonePending(e, copy);
  }

  lemma NarrowWrite(e: Endpoint, j: nat, value: seq<byte>, accepted: bool)
    requires Valid(e) && WantsNothing(e) && Writable(e, j, value)
    ensures Narrow(Written(e, j, value), accepted)
  {
    var e' := Written(e, j, value);
    assert forall i :: 0 <= i < NUM_IDS ==> !Wants(e, i);
    assert forall i :: 0 <= i < NUM_IDS && Wants(e', i) ==> i == j || Wants(e, i);
    assert None(e'.tx.transfer) by {
      assert forall i :: 0 <= i < NUM_IDS && e'.tx.transfer[i] ==> Wants(e, i);
    }
  }

  lemma NotifyKeepsNarrow(e: Endpoint, accepted: bool)
    requires Valid(e) && Narrow(e, accepted)
    ensures Narrow(StopNotifier(e), accepted)
  {
    assert forall j :: 0 <= j < NUM_IDS && Wants(StopNotifier(e), j) ==> Wants(e, j);
  }

  /** With frugal clients every step is timely, and stays so. */
  lemma NarrowKeeps(s: System, a: Action)
    requires Inv(s) && Enabled(s, a) && NarrowSystem(s) && Frugal(s, a)
    ensures Timely(s, a)
    ensures Step(s, a).Ok? && Inv(Step(s, a).value) && NarrowSystem(Step(s, a).value)
  {
    hide Sent, Taken, In, Out, Timely, Written, Writable, Closing, Narrow, None, WantsNothing;
    NarrowIsTimely(s, a);
    StepKeeps(s, a);
    match a
    case LocalWrite(Fpga, id, value) => NarrowWrite(s.fpga, id, value, s.phase.FpgaOut?);
    case LocalWrite(Mcu, id, value) => NarrowWrite(s.mcu, id, value, s.phase.McuOut?);
    case Notify => NotifyKeepsNarrow(s.fpga, s.phase.FpgaOut?);
    case HalfTurn => NarrowHalfTurn(s);
  }

  lemma NarrowHalfTurn(s: System)
    requires Inv(s) && Enabled(s, HalfTurn) && NarrowSystem(s)
    requires Step(s, HalfTurn).Ok? && ValidSystem(Step(s, HalfTurn).value)
    ensures NarrowSystem(Step(s, HalfTurn).value)
  {
    hide In, Out, Narrow, None, Synced, Flight, Handshake, Exclusive, Copied, Coherent, ValidSizes,
         ValidSender, ValidReceiver, Blank, RequestBitClear;
    match s.phase
    case FpgaIn =>
      SentFlags(s.mcu, s.fpga, s.mcuCopy, s.fpgaCopy, s.wire);
      NarrowIn(s.mcu, s.fpga, s.mcuCopy, s.fpgaCopy, s.wire);
    case FpgaOut => NarrowOut(s.fpga, s.fpgaCopy);
    case McuIn => NarrowIn(s.fpga, s.mcu, s.fpgaCopy, s.mcuCopy, s.wire);
    case McuOut => NarrowOut(s.mcu, s.mcuCopy);
  }

  /** Steps that only the source's own guards and frugal clients restrict. */
  ghost predicate FrugalRun(objects: seq<seq<byte>>, wire: byte, ss: seq<System>, acts: seq<Action>) {
    && ValidSizes(objects)
    && |ss| == |acts| + 1
    && ss[0] == Init(objects, wire)
    && forall i :: 0 <= i < |acts| ==>
         && ValidSystem(ss[i]) && Enabled(ss[i], acts[i]) && Frugal(ss[i], acts[i])
         && Step(ss[i], acts[i]) == Ok(ss[i + 1])
  }

  lemma {:induction false} FrugalRunNarrow(objects: seq<seq<byte>>, wire: byte, ss: seq<System>,
                                           acts: seq<Action>, k: nat)
    requires FrugalRun(objects, wire, ss, acts) && k < |ss|
    ensures Inv(ss[k]) && NarrowSystem(ss[k])
  {
    hide Inv, Step, Enabled, Timely, Frugal;
    if k == 0 {
      InitInv(objects, wire);
      assert NarrowSystem(ss[0]) by { InitNarrow(objects, wire); }
    } else {
      FrugalRunNarrow(objects, wire, ss, acts, k - 1);
      assert Step(ss[k - 1], acts[k - 1]) == Ok(ss[k]);
      NarrowKeeps(ss[k - 1], acts[k - 1]);
    }
  }

  lemma InitNarrow(objects: seq<seq<byte>>, wire: byte)
    requires ValidSizes(objects) && ValidSystem(Init(objects, wire))
    ensures NarrowSystem(Init(objects, wire))
  {
  }

  /** So for frugal clients the missing guard never matters: their runs are runs. */
  lemma FrugalClientsAreTimely(objects: seq<seq<byte>>, wire: byte, ss: seq<System>, acts: seq<Action>)
    requires FrugalRun(objects, wire, ss, acts)
    ensures Run(objects, wire, ss, acts)
  {
    hide Inv, Step, Enabled, Timely, Frugal, Init;
    forall i | 0 <= i < |acts|
      ensures Next(ss[i], acts[i], ss[i + 1])
    {
      FrugalRunNarrow(objects, wire, ss, acts, i);
      NarrowKeeps(ss[i], acts[i]);
    }
  }

  // ----- Local writes that lose -----

  /** No object is wanted by both sides. */
  predicate Uncontended(s: System)
    requires ValidSystem(s)
  {
    forall j :: 0 <= j < NUM_IDS ==> !(Wants(s.fpga, j) && Wants(s.mcu, j))
  }

  /** IN drops a local sync request without a transfer exactly when the byte read is the peer's
      request for the same object. */
  lemma WriteLostExactly(x: Endpoint, y: Endpoint, copyX: seq<seq<byte>>, copyY: seq<seq<byte>>, b: byte, j: nat)
    requires Sent(x, y, copyX, copyY, b) && !y.firstRun && !y.vars.receivedSighup && j < NUM_IDS
    ensures In(y, b).Ok?
    ensures var y' := In(y, b).value;
            && (y.sync[j] && !y'.sync[j] && !y'.tx.transfer[j] <==> y.sync[j] && RequestedBy(x, j))
            && (y.sync[j] && RequestedBy(y, j) ==> !y'.sync[j] && y'.tx.transfer[j])
  {
    hide Synced, Flight, Handshake, Coherent, Copied, ValidSizes, ValidSender, In;
    InEffect(x, y, copyX, copyY, b);
    if x.vars.acknowledgeRequested {
      RequestIsFree(x, y, copyX, copyY, b);
    }
  }

  /** If no object is wanted by both sides, no local write is lost: its request stands until the
      transfer is granted. */
  lemma NoWriteLost(x: Endpoint, y: Endpoint, copyX: seq<seq<byte>>, copyY: seq<seq<byte>>, b: byte, j: nat)
    requires Sent(x, y, copyX, copyY, b) && !y.firstRun && !y.vars.receivedSighup && j < NUM_IDS
    requires !(Wants(x, j) && Wants(y, j))
    ensures In(y, b).Ok?
    ensures y.sync[j] ==> In(y, b).value.sync[j] || In(y, b).value.tx.transfer[j]
  {
    hide Synced, Flight, Handshake, Coherent, Copied, ValidSizes, ValidSender, In;
    WriteLostExactly(x, y, copyX, copyY, b, j);
    assert RequestedBy(x, j) ==> x.sync[j];
  }

  /** Clients that write an object only when the other side does not want it keep it that way. */
  lemma UncontendedKeeps(s: System, a: Action, s': System)
    requires Inv(s) && Next(s, a, s') && Uncontended(s)
    requires a.LocalWrite? && a.id < NUM_IDS ==> !Wants(if a.role.Fpga? then s.mcu else s.fpga, a.id)
    ensures Inv(s') && Uncontended(s')
  {
    hide In, Out, Sent, Taken, Timely, Written, Closing, None;
    StepKeeps(s, a);
    forall j | 0 <= j < NUM_IDS
      ensures !(Wants(s'.fpga, j) && Wants(s'.mcu, j))
    {
      StepWants(s, a, s', j);
    }
  }

  lemma StepWants(s: System, a: Action, s': System, j: nat)
    requires Inv(s) && Next(s, a, s') && Inv(s') && j < NUM_IDS
    ensures Wants(s'.fpga, j) ==> Wants(s.fpga, j) || (a.LocalWrite? && a.role.Fpga? && a.id == j)
    ensures Wants(s'.mcu, j) ==> Wants(s.mcu, j) || (a.LocalWrite? && a.role.Mcu? && a.id == j)
  {
    hide In, Out, Synced, Flight, Handshake, Exclusive, Copied, Coherent, ValidSizes, ValidSender,
         ValidReceiver, Blank, RequestBitClear, Timely, Closing, None;
    if a.HalfTurn? {
      match s.phase
      case FpgaIn =>
        NoSighupYet(s);
        InWants(s.mcu, s.fpga, s.mcuCopy, s.fpgaCopy, s.wire, j);
      case FpgaOut => OutTransfers(s.fpga);
      case McuIn =>
        NoSighupYet(s);
        InWants(s.fpga, s.mcu, s.fpgaCopy, s.mcuCopy, s.wire, j);
      case McuOut => OutTransfers(s.mcu);
    }
  }

  lemma InWants(x: Endpoint, y: Endpoint, copyX: seq<seq<byte>>, copyY: seq<seq<byte>>, b: byte, j: nat)
    requires Sent(x, y, copyX, copyY, b) && !y.vars.receivedSighup && j < NUM_IDS
    ensures In(y, b).Ok? && (Wants(In(y, b).value, j) ==> Wants(y, j))
  {
    hide Synced, Flight, Handshake, Coherent, Copied, ValidSizes, ValidSender;
    if !y.firstRun {
      hide In;
      InEffect(x, y, copyX, copyY, b);
    }
  }
}
