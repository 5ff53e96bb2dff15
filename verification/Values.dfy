/** Which value wins: whose copy of an object ends up in both memories. */
module Values {
  import opened Bits
  import opened Codec
  import opened Endpoint
  import opened Link
  import opened Pair
  import opened Mirror
  import opened Safety
  import opened Shutdown

  /** This side's copy of object j is here to stay: the peer does not want to send j, and nothing of j
      is being received. */
  predicate Stands(s: System, role: Role, j: nat) {
    && ValidSystem(s) && j < |s.fpga.objects|
    && !Wants(PeerOf(s, role), j) && !SideOf(s, role).rx.readLock[j]
  }

  /** Both sides want to send object j. */
  predicate Contested(s: System, j: nat) {
    ValidSystem(s) && j < |s.fpga.objects| && Wants(s.fpga, j) && Wants(s.mcu, j)
  }

  // ----- One IN -----

  lemma DataKeepsOthers(x: Endpoint, y: Endpoint, copyX: seq<seq<byte>>, copyY: seq<seq<byte>>, b: byte, j: nat)
    requires Sent(x, y, copyX, copyY, b) && !y.firstRun && !y.vars.receivedSighup
    requires !x.wires.requestOut && j < |y.objects| && !y.rx.readLock[j]
    ensures Valid(ReceiveSignals(y, b)) && ReadObject(ReceiveSignals(y, b), b).Ok?
    ensures var o := ReadObject(ReceiveSignals(y, b), b).value.objects;
            |o| == |y.objects| && o[j] == y.objects[j]
  {
    hide TakeByte, Received, RequestBit, AcknowledgeBit, Low6, Exclusive, Copied, Synced, Coherent, Handshake, Flight;
    SignalsArrive(x, y, copyX, copyY, b);
    DataArrives(x, y, copyX, copyY, b);
    ReadData(x, y, copyX, copyY, b);
  }

  /** IN leaves alone every object that is not being received, and begins to receive only what the peer
      has asked for. */
  lemma InValues(x: Endpoint, y: Endpoint, copyX: seq<seq<byte>>, copyY: seq<seq<byte>>, b: byte, j: nat)
    requires Sent(x, y, copyX, copyY, b) && !y.vars.receivedSighup && j < |y.objects| <= NUM_IDS
    ensures In(y, b).Ok? && |In(y, b).value.objects| == |y.objects| && |In(y, b).value.rx.readLock| == NUM_IDS
    ensures !y.rx.readLock[j] ==> In(y, b).value.objects[j] == y.objects[j]
    ensures In(y, b).value.rx.readLock[j] ==> y.rx.readLock[j] || RequestedBy(x, j)
  {
    hide ReadHook, ReadObject, TransferHook, Acknowledge, ReceiveSignals, Handled, Synced, Taken, Exclusive,
         Copied, Coherent, RequestBit, AcknowledgeBit, Low6, DataInFlight, Handshake;
    InKeeps(x, y, copyX, copyY, b);
    var y' := In(y, b).value;
    TakenSizes(x, y', CopyOnGrant(x, y, y', copyX), copyY);
    GrantsOnly(x, y, y', copyX, CopyOnGrant(x, y, y', copyX), copyY, b, j);
    if !y.firstRun && !y.rx.readLock[j] {
      SignalsArrive(x, y, copyX, copyY, b);
      if !x.wires.requestOut {
        DataKeepsOthers(x, y, copyX, copyY, b, j);
        ReadData(x, y, copyX, copyY, b);
        HooksKeep(ReadObject(ReceiveSignals(y, b), b).value);
      } else {
        if x.vars.acknowledgeRequested {
          ReadRequest(x, y, copyX, copyY, b);
        } else {
          ReadControl(x, y, copyX, copyY, b);
        }
        HooksKeep(ReadHook(ReceiveSignals(y, b), b).value);
        RequestKeepsObjects(y, b);
      }
    }
  }

  lemma GrantsOnly(x: Endpoint, y: Endpoint, y': Endpoint, copyX: seq<seq<byte>>, copyX': seq<seq<byte>>,
                   copyY: seq<seq<byte>>, b: byte, j: nat)
    requires Sent(x, y, copyX, copyY, b) && Taken(x, y', copyX', copyY) && j < NUM_IDS
    ensures y'.rx.readLock[j] ==> y.rx.readLock[j] || RequestedBy(x, j)
  {
    hide Synced, Coherent, Exclusive, Copied, Flight, Handshake, Blank, ValidSizes;
    SentOwnership(x, y, copyX, copyY, b);
    assert y'.rx.readLock == Grants(x);
  }

  lemma RequestIsWanted(x: Endpoint, y: Endpoint, copyX: seq<seq<byte>>, copyY: seq<seq<byte>>, b: byte, j: nat)
    requires Sent(x, y, copyX, copyY, b) && j < NUM_IDS
    ensures Valid(x) && (RequestedBy(x, j) ==> Wants(x, j))
  {
    hide Synced, Coherent, Exclusive, Copied, Flight, Handshake, Blank;
  }

  // ----- One step -----

  lemma OutKeepsObjects(e: Endpoint)
    requires Valid(e) && Out(e).Ok?
    ensures Out(e).value.0.objects == e.objects && Out(e).value.0.rx == e.rx
  {
    hide ValidSizes, ValidSender, ValidReceiver, WriteObject, SetSignals, Choose;
  }

  /** A step other than a write of j leaves j's copy on this side alone unless j is being received here,
      and begins to receive j only if the peer wants to send it. */
  lemma StepValues(s: System, a: Action, s': System, role: Role, j: nat)
    requires Inv(s) && Next(s, a, s') && j < |s.fpga.objects| <= NUM_IDS
    requires !(a.LocalWrite? && a.role == role && a.id == j)
    ensures Inv(s') && ValidSystem(s') && |s'.fpga.objects| == |s.fpga.objects|
    ensures var e, e' := SideOf(s, role), SideOf(s', role);
            && (!e.rx.readLock[j] ==> e'.objects[j] == e.objects[j])
            && (e'.rx.readLock[j] ==> e.rx.readLock[j] || Wants(PeerOf(s, role), j))
  {
    hide In, Out, Sent, Taken, Timely, Closing, ValidSizes, ValidSender, Wants;
    StepKeeps(s, a);
    match a
    case HalfTurn =>
      NoSighupYet(s);
      match s.phase {
        case FpgaIn =>
          SentFlags(s.mcu, s.fpga, s.mcuCopy, s.fpgaCopy, s.wire);
          InValues(s.mcu, s.fpga, s.mcuCopy, s.fpgaCopy, s.wire, j);
          RequestIsWanted(s.mcu, s.fpga, s.mcuCopy, s.fpgaCopy, s.wire, j);
        case FpgaOut => OutKeepsObjects(s.fpga);
        case McuIn =>
          InValues(s.fpga, s.mcu, s.fpgaCopy, s.mcuCopy, s.wire, j);
          RequestIsWanted(s.fpga, s.mcu, s.fpgaCopy, s.mcuCopy, s.wire, j);
        case McuOut => OutKeepsObjects(s.mcu);
      }
    case _ =>
  }

  /** What stands goes on standing, unchanged, until it is written. */
  lemma StandsKeeps(s: System, a: Action, s': System, role: Role, j: nat)
    requires Inv(s) && Next(s, a, s') && Stands(s, role, j) && !(a.LocalWrite? && a.id == j)
    ensures Inv(s') && Stands(s', role, j) && SideOf(s', role).objects[j] == SideOf(s, role).objects[j]
  {
    hide Inv, Next, Wants, ValidSender, ValidReceiver;
    StepValues(s, a, s', role, j);
    StepWants(s, a, s', j);
  }

  /** While both sides want an object neither copy changes, until it is written. */
  lemma ContestedKeeps(s: System, a: Action, s': System, j: nat)
    requires Inv(s) && Next(s, a, s') && Contested(s, j) && !(a.LocalWrite? && a.id == j)
    ensures Inv(s') && ValidSystem(s') && |s'.fpga.objects| == |s.fpga.objects|
    ensures s'.fpga.objects[j] == s.fpga.objects[j] && s'.mcu.objects[j] == s.mcu.objects[j]
  {
    hide Inv, Next, ValidSender, ValidReceiver, Wants;
    StepValues(s, a, s', Fpga, j);
    StepValues(s, a, s', Mcu, j);
    WantedIsNotReceived(s, j);
  }

  lemma WantedIsNotReceived(s: System, j: nat)
    requires Inv(s) && ValidSystem(s) && j < NUM_IDS
    ensures Wants(s.fpga, j) ==> !s.fpga.rx.readLock[j]
    ensures Wants(s.mcu, j) ==> !s.mcu.rx.readLock[j]
  {
    hide Synced, Coherent, Grants, Flight, Handshake, Blank, Copied, Closing, RequestBitClear;
  }

  lemma RequestedIsWanted(s: System, j: nat)
    requires Inv(s) && ValidSystem(s) && j < NUM_IDS
    ensures RequestedBy(s.fpga, j) ==> Wants(s.fpga, j)
    ensures RequestedBy(s.mcu, j) ==> Wants(s.mcu, j)
  {
    hide Synced, Coherent, Grants, Flight, Handshake, Blank, Copied, Closing, Exclusive;
  }

  /** Of every object that is not contested one side's copy stands. */
  lemma EitherStands(s: System, j: nat)
    requires Inv(s) && ValidSystem(s) && j < |s.fpga.objects| <= NUM_IDS
    ensures Contested(s, j) || Stands(s, Fpga, j) || Stands(s, Mcu, j)
  {
    Ownership(s);
    WantedIsNotReceived(s, j);
    RequestedIsWanted(s, j);
    hide Inv, ValidSender, ValidReceiver;
  }

  /** From s to t no copy that stood has been lost, and no value has come from nowhere. */
  predicate Outcome(s: System, t: System) {
    && ValidSystem(s) && ValidSystem(t) && |t.fpga.objects| == |t.mcu.objects| == |s.fpga.objects| == |s.mcu.objects|
    && forall j :: 0 <= j < |s.fpga.objects| ==>
         && (Stands(s, Fpga, j) ==> t.fpga.objects[j] == t.mcu.objects[j] == s.fpga.objects[j])
         && (Stands(s, Mcu, j) ==> t.fpga.objects[j] == t.mcu.objects[j] == s.mcu.objects[j])
         && (t.fpga.objects[j] == s.fpga.objects[j] || t.fpga.objects[j] == s.mcu.objects[j])
  }

  // ----- The value written last -----

  /** What clients last wrote to object j, or what it was at the start. */
  function LastWritten(objects: seq<seq<byte>>, acts: seq<Action>, j: nat): seq<byte>
    requires j < |objects|
  {
    if acts == [] then objects[j]
    else
      var a := acts[|acts| - 1];
      if a.LocalWrite? && a.id == j then a.value else LastWritten(objects, acts[..|acts| - 1], j)
  }

  /** Clients write object j only when the other side does not want it. */
  predicate Polite(s: System, a: Action, j: nat) {
    ValidSystem(s) && (a.LocalWrite? && a.id == j < NUM_IDS ==> !Wants(PeerOf(s, a.role), j))
  }

  lemma WriteStands(s: System, a: Action, s': System)
    requires Inv(s) && Next(s, a, s') && a.LocalWrite? && Polite(s, a, a.id)
    ensures Inv(s') && Stands(s', a.role, a.id) && SideOf(s', a.role).objects[a.id] == a.value
  {
    hide InStep, Closing, ValidSender, ValidReceiver;
    StepKeeps(s, a);
  }

  lemma StartStands(objects: seq<seq<byte>>, wire: byte, j: nat)
    requires ValidSizes(objects) && j < |objects|
    ensures Stands(Init(objects, wire), Fpga, j) && Init(objects, wire).fpga.objects[j] == objects[j]
  {
  }

  /** In every state of a run whose clients are polite about object j, one side's copy of object j is what clients last
      wrote to it, and that copy stands. */
  lemma {:induction false} LastWrittenStands(objects: seq<seq<byte>>, wire: byte, ss: seq<System>, acts: seq<Action>,
                                             k: nat, j: nat)
    returns (role: Role)
    requires Run(objects, wire, ss, acts) && k <= |acts| && j < |objects|
    requires forall i :: 0 <= i < k ==> Polite(ss[i], acts[i], j)
    ensures Inv(ss[k]) && Stands(ss[k], role, j)
    ensures SideOf(ss[k], role).objects[j] == LastWritten(objects, acts[..k], j)
  {
    hide Inv, Next, Stands, Init, Polite;
    if k == 0 {
      role := Fpga;
      InitInv(objects, wire);
      StartStands(objects, wire, j);
    } else {
      role := LastWrittenStands(objects, wire, ss, acts, k - 1, j);
      var s, a := ss[k - 1], acts[k - 1];
      assert Next(s, a, ss[k]) && Polite(s, a, j);
      assert acts[..k][..k - 1] == acts[..k - 1];
      if a.LocalWrite? && a.id == j {
        role := a.role;
        WriteStands(s, a, ss[k]);
      } else {
        StandsKeeps(s, a, ss[k], role, j);
      }
    }
  }

  /** Clean shutdown: both memories end with what clients last wrote to every object they have been
      polite about. */
  lemma CleanShutdownKeepsWrites(objects: seq<seq<byte>>, wire: byte, ss: seq<System>, acts: seq<Action>,
                                 k: nat, j: nat)
    requires QuietRun(objects, wire, ss, acts) && k <= |acts| && j < |objects|
    requires forall i :: 0 <= i < k ==> Polite(ss[i], acts[i], j)
    requires ss[k].fpga.vars.sentSighup
    ensures j < |ss[k].fpga.objects| && j < |ss[k].mcu.objects|
    ensures ss[k].fpga.objects[j] == ss[k].mcu.objects[j] == LastWritten(objects, acts[..k], j)
  {
    hide Inv, Next, Polite, LastWritten, Wants, AtRest;
    var role := LastWrittenStands(objects, wire, ss, acts, k, j);
    CleanShutdown(objects, wire, ss, acts, k);
  }
}
