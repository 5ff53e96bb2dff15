/** What an untimely com_shutdown leads to, whatever happens next: the peer keeps its read lock for ever
    and never sends sighup. */
module Aftermath {
  import opened Results
  import opened Bits
  import opened Codec
  import opened Endpoint
  import opened Link
  import opened Pair
  import opened Mirror
  import opened Safety
  import opened Shutdown

  // ----- The two sides -----

  /** This side has sent com_shutdown and keeps bit 7 raised. */
  predicate Closer(x: Endpoint) {
    Valid(x) && !x.firstRun && x.wires.requestOut && x.vars.sentComShutdown && !x.vars.acknowledgeRequested
  }

  /** The peer is receiving object j. Bit 7 of its own bytes is in order. */
  predicate Waiting(y: Endpoint, j: nat, writes: bool) {
    && Valid(y) && !y.firstRun && j < |y.objects| && y.rx.readLock[j]
    && RequestBitClear(y) && !y.vars.sentSighup
    && (y.tx.lock ==> y.tx.transfer[y.tx.origin])
    && (forall k :: |y.objects| <= k < NUM_IDS ==> !y.tx.transfer[k])
    && (y.waiting < |y.objects| || y.waiting >= NUM_IDS)
    && (writes ==> !y.vars.acknowledgeRequested)
  }

  /** What IN does to a side that has nothing to be acknowledged. */
  lemma HooksKeepBits(e: Endpoint)
    requires Valid(e) && TransferHook(e).Ok? && Acknowledge(TransferHook(e).value).Ok?
    ensures var e' := Acknowledge(TransferHook(e).value).value;
            && e'.wires.requestOut == e.wires.requestOut && e'.objects == e.objects && e'.waiting == e.waiting
            && e'.tx == e.tx.(transfer := e'.tx.transfer)
            && |e'.tx.transfer| == |e'.rx.readLock| == NUM_IDS
            && (forall k :: 0 <= k < NUM_IDS && e.rx.readLock[k] ==> e'.rx.readLock[k])
            && (forall k :: 0 <= k < NUM_IDS ==>
                  (e'.tx.transfer[k] <==> e.tx.transfer[k] || (e.vars.receivedAcknowledge && k == e.waiting)))
            && !e'.vars.acknowledgeRequested
            && (e.vars.receivedAcknowledge <==> e.vars.acknowledgeRequested)
  {
    hide ValidSizes;
    GrantKeeps(e);
    AcknowledgeKeeps(TransferHook(e).value);
    hide TransferHook, Acknowledge;
  }

  lemma GrantKeeps(e: Endpoint)
    requires Valid(e) && TransferHook(e).Ok?
    ensures var e' := TransferHook(e).value;
            && e'.wires.requestOut == e.wires.requestOut && e'.objects == e.objects && e'.waiting == e.waiting
            && e'.tx == e.tx && e'.vars == e.vars && |e'.rx.readLock| == NUM_IDS
            && (forall k :: 0 <= k < NUM_IDS && e.rx.readLock[k] ==> e'.rx.readLock[k])
  {
    hide ValidSizes, ValidSender;
  }

  lemma AcknowledgeKeeps(e: Endpoint)
    requires Valid(e) && Acknowledge(e).Ok?
    ensures var e' := Acknowledge(e).value;
            && e'.wires == e.wires && e'.objects == e.objects && e'.waiting == e.waiting && e'.rx == e.rx
            && e'.tx == e.tx.(transfer := e'.tx.transfer) && |e'.tx.transfer| == NUM_IDS
            && (forall k :: 0 <= k < NUM_IDS ==>
                  (e'.tx.transfer[k] <==> e.tx.transfer[k] || (e.vars.receivedAcknowledge && k == e.waiting)))
            && !e'.vars.acknowledgeRequested
            && (e.vars.receivedAcknowledge <==> e.vars.acknowledgeRequested)
  {
    hide ValidSizes, ValidReceiver;
  }

  /** Whatever the closer reads, its bit 7 stays up. */
  lemma CloserReads(x: Endpoint, b: byte)
    requires Closer(x) && In(x, b).Ok? && (RequestBit(b) ==> Low6(b) != POWERON)
    ensures Closer(In(x, b).value)
  {
    hide ReadByte, RequestBit, Low6, AcknowledgeBit, ReadHook, TakeByte, TransferHook, Acknowledge, ValidSizes,
         ValidSender, ValidReceiver;
    var e1 := ReceiveSignals(x, b);
    SignalsKeepSync(x, b);
    var e2 := if e1.vars.receivedRequest then ReadHook(e1, b).value else ReadObject(e1, b).value;
    if e1.vars.receivedRequest {
      HookAfterShutdown(e1, b);
    } else {
      TakeKeepsLocks(e1, b);
    }
    HooksKeepBits(e2);
    HooksFrame(e2);
    assert In(x, b) == Acknowledge(TransferHook(e2).value);
  }

  /** Whatever the closer writes carries a raised bit 7. */
  lemma CloserWrites(x: Endpoint)
    requires Closer(x) && Out(x).Ok?
    ensures Closer(Out(x).value.0) && RequestBit(Out(x).value.1)
  {
    hide Out, Choose, RequestBit, ValidSizes, ValidSender, ValidReceiver;
    OutFrame(x);
    CloserChooses(x);
    if Choose(x).Data? || Choose(x).Transfer? {
      DataIsRaised(x);
    } else {
      assert RequestBit(Out(x).value.1) by { SignalFramed(x); }
      SignalRaises(x);
    }
  }

  lemma CloserChooses(x: Endpoint)
    requires Closer(x)
    ensures !Choose(x).Request?
  {
    hide ValidSizes, ValidSender, ValidReceiver;
  }

  lemma SignalRaises(x: Endpoint)
    requires Valid(x) && Out(x).Ok? && !Choose(x).Data? && !Choose(x).Transfer?
    ensures Out(x).value.0.wires.requestOut
  {
    hide ValidSizes, ValidSender, ValidReceiver, Choose, SetSignals;
  }

  lemma DataIsRaised(x: Endpoint)
    requires Valid(x) && Out(x).Ok? && (Choose(x).Data? || Choose(x).Transfer?)
    ensures Out(x).value.0.wires == x.wires && (RequestBit(Out(x).value.1) <==> x.wires.requestOut)
  {
    hide ValidReceiver, WriteObject, RequestBit, TransfersPending, IncomingShutdownQuery, OutgoingSighupQuery;
    DataSignals(if x.tx.lock then x.tx else Opening(x.tx, FirstTransfer(x)), x.objects, x.wires);
  }

  /** A byte with bit 7 raised is no data: the peer's read lock stays. */
  lemma WaitingReads(y: Endpoint, b: byte, j: nat)
    requires Waiting(y, j, false) && RequestBit(b) && In(y, b).Ok?
    ensures Waiting(In(y, b).value, j, true)
  {
    assert |y.objects| <= NUM_IDS && |y.tx.transfer| == |y.rx.readLock| == NUM_IDS;
    assert y.tx.lock ==> y.tx.origin < |y.objects|;
    var y' := In(y, b).value;
    ReadsAsControl(y, b);
    assert Valid(y');
    hide In, RequestBit, AcknowledgeBit, Valid;
    assert !AcknowledgeBit(b) && None(y.tx.transfer) ==> None(y'.tx.transfer);
  }

  /** IN, when the byte is a request or a control code. */
  lemma ReadsAsControl(y: Endpoint, b: byte)
    requires Valid(y) && !y.firstRun && RequestBit(b) && In(y, b).Ok?
    ensures var y', acknowledged := In(y, b).value, AcknowledgeBit(b);
            && !y'.firstRun && y'.objects == y.objects && y'.waiting == y.waiting
            && y'.tx == y.tx.(transfer := y'.tx.transfer)
            && y'.wires.requestOut == (y.wires.requestOut && !acknowledged)
            && |y.tx.transfer| == |y'.tx.transfer| == |y.rx.readLock| == |y'.rx.readLock| == NUM_IDS
            && (forall k :: 0 <= k < NUM_IDS && y.rx.readLock[k] ==> y'.rx.readLock[k])
            && (forall k :: 0 <= k < NUM_IDS ==>
                  (y'.tx.transfer[k] <==> y.tx.transfer[k] || (acknowledged && k == y.waiting)))
            && !y'.vars.acknowledgeRequested && (acknowledged <==> y.vars.acknowledgeRequested)
            && (y'.vars.sentSighup ==> y.vars.sentSighup)
  {
    var e1 := ReceiveSignals(y, b);
    SignalsKeepSync(y, b);
    var e2 := ReadHook(e1, b).value;
    HookKeepsLocks(e1, b);
    HooksKeepBits(e2);
    HooksFrame(e2);
    hide RequestBit, AcknowledgeBit, ReadHook, TransferHook, Acknowledge, ValidSizes;
    assert In(y, b).value == Acknowledge(TransferHook(e2).value).value;
  }

  lemma HookKeepsLocks(e: Endpoint, b: byte)
    requires Valid(e) && ReadHook(e, b).Ok?
    ensures var e' := ReadHook(e, b).value;
            && e' == e.(vars := e'.vars, incoming := e'.incoming)
            && (e'.vars.sentSighup ==> e.vars.sentSighup)
            && (e.vars.acknowledgeRequested == e'.vars.acknowledgeRequested)
            && (e.vars.receivedAcknowledge == e'.vars.receivedAcknowledge)
  {
    hide Low6, Valid;
  }

  lemma WaitingChooses(y: Endpoint, j: nat)
    requires Waiting(y, j, true)
    ensures !Choose(y).Sighup? && !Choose(y).PowerOn?
    ensures Choose(y).Data? || Choose(y).Transfer? ==> !None(y.tx.transfer)
    ensures Choose(y).Idle? ==> None(y.tx.transfer)
  {
    hide TransfersPending, IncomingShutdownQuery;
    assert ReadsPending(y);
    if Choose(y).Transfer? {
      assert y.tx.transfer[FirstTransfer(y)];
    }
  }

  lemma OutKeepsPlace(e: Endpoint)
    requires Valid(e) && Out(e).Ok?
    ensures var e' := Out(e).value.0;
            && e'.objects == e.objects
            && (if Choose(e).Request? then e'.waiting == Choose(e).id else e'.waiting == NUM_IDS)
            && (Choose(e).Data? || Choose(e).Transfer? ==> e'.wires == e.wires)
            && (e'.tx.lock ==> e'.tx.origin == (if Choose(e).Transfer? then Choose(e).id else e.tx.origin))
            && (e'.tx.lock && !Choose(e).Transfer? ==> e.tx.lock && e'.tx.transfer == e.tx.transfer)
            && (Choose(e).Transfer? ==> e.tx.transfer[Choose(e).id] && e'.tx.transfer == e.tx.transfer)
  {
    hide ValidReceiver, TransfersPending, IncomingShutdownQuery, OutgoingSighupQuery, WriteByte, SetSignals;
  }

  lemma WaitingWrites(y: Endpoint, j: nat)
    requires Waiting(y, j, true) && Out(y).Ok? && (Choose(y).Shutdown? ==> None(y.tx.transfer))
    ensures Waiting(Out(y).value.0, j, false)
    ensures RequestBit(Out(y).value.1) ==> Low6(Out(y).value.1) != POWERON
  {
    OutFrame(y);
    OutTransfers(y);
    WaitingChooses(y, j);
    OutKeepsPlace(y);
    if Choose(y).Data? || Choose(y).Transfer? {
      DataIsRaised(y);
    } else {
      SignalFramed(y);
    }
    hide Out, Choose, RequestBit, Low6, ValidReceiver;
    var y' := Out(y).value.0;
    assert None(y.tx.transfer) ==> None(y'.tx.transfer);
  }

  // ----- The link -----

  function ReadsNext(s: System, role: Role): bool {
    if role.Fpga? then s.phase.FpgaIn? else s.phase.McuIn?
  }

  function WritesNext(s: System, role: Role): bool {
    if role.Fpga? then s.phase.FpgaOut? else s.phase.McuOut?
  }

  function PeerRole(role: Role): Role {
    if role.Fpga? then Mcu else Fpga
  }

  /** `role` has closed too early, while the peer was receiving object j. */
  predicate Broken(s: System, role: Role, j: nat) {
    && Closer(SideOf(s, role))
    && Waiting(PeerOf(s, role), j, WritesNext(s, PeerRole(role)))
    && (ReadsNext(s, PeerRole(role)) ==> RequestBit(s.wire))
    && (ReadsNext(s, role) && RequestBit(s.wire) ==> Low6(s.wire) != POWERON)
  }

  /** The peer's own com_shutdown, at least, is in time. */
  predicate PeerTimely(s: System, a: Action, role: Role)
    requires ValidSystem(s)
  {
    a.HalfTurn? && WritesNext(s, PeerRole(role)) && Choose(PeerOf(s, role)).Shutdown? ==>
      None(PeerOf(s, role).tx.transfer)
  }

  lemma TurnStaysBroken(s: System, s': System, role: Role, j: nat)
    requires ValidSystem(s) && Broken(s, role, j) && Enabled(s, HalfTurn) && PeerTimely(s, HalfTurn, role)
    requires Step(s, HalfTurn) == Ok(s')
    ensures Broken(s', role, j)
  {
    hide In, Out, Choose, Closer, Waiting, RequestBit, Low6, None, ValidSizes, ValidSender, ValidReceiver;
    var x, y := SideOf(s, role), PeerOf(s, role);
    if ReadsNext(s, role) {
      assert Valid(x) && In(x, s.wire).Ok?;
      CloserReads(x, s.wire);
    } else if WritesNext(s, role) {
      assert Valid(x) && Out(x).Ok?;
      CloserWrites(x);
      WaitingAnyway(y, j);
    } else if ReadsNext(s, PeerRole(role)) {
      WaitingReads(y, s.wire, j);
    } else {
      WaitingWrites(y, j);
    }
  }

  lemma WaitingAnyway(y: Endpoint, j: nat)
    ensures Waiting(y, j, true) ==> Waiting(y, j, false)
  {
    hide Valid;
  }

  lemma OthersStayBroken(s: System, a: Action, s': System, role: Role, j: nat)
    requires ValidSystem(s) && Broken(s, role, j) && Enabled(s, a) && !a.HalfTurn? && Step(s, a) == Ok(s')
    ensures Broken(s', role, j)
  {
    hide RequestBit, Low6, ValidSizes, ValidSender, ValidReceiver;
    assert Valid(PeerOf(s, role)) && Valid(SideOf(s, role));
  }

  lemma SomeTransfer(x: Endpoint) returns (j: nat)
    requires Valid(x) && !None(x.tx.transfer)
    ensures j < NUM_IDS && x.tx.transfer[j]
  {
    j :| 0 <= j < NUM_IDS && x.tx.transfer[j];
  }

  lemma BreaksAt(s: System, role: Role, s': System, j: nat)
    requires ValidSystem(s) && WritesNext(s, role) && Enabled(s, HalfTurn) && Step(s, HalfTurn) == Ok(s')
    requires Choose(SideOf(s, role)).Shutdown? && Waiting(PeerOf(s, role), j, false)
    ensures Broken(s', role, j)
  {
    hide In, Choose, Waiting, Closer, RequestBit, Low6, ValidSizes, ValidSender, ValidReceiver, Out;
    assert Valid(SideOf(s, role)) && Out(SideOf(s, role)).Ok?;
    ShutdownRaises(SideOf(s, role));
  }

  /** com_shutdown leaves although an accepted object waits. */
  lemma BreaksHere(s: System, role: Role, s': System) returns (j: nat)
    requires Inv(s) && ValidSystem(s) && WritesNext(s, role) && Enabled(s, HalfTurn) && Step(s, HalfTurn) == Ok(s')
    requires Choose(SideOf(s, role)).Shutdown? && !None(SideOf(s, role).tx.transfer)
    ensures j < NUM_IDS && Broken(s', role, j)
  {
    hide Inv, Step, Enabled, Choose, Waiting, Broken, None, ValidSizes, ValidSender, ValidReceiver;
    j := SomeTransfer(SideOf(s, role));
    PeerWaits(s, role, j);
    BreaksAt(s, role, s', j);
  }

  lemma ShutdownRaises(x: Endpoint)
    requires Valid(x) && Choose(x).Shutdown? && Out(x).Ok?
    ensures Closer(Out(x).value.0) && RequestBit(Out(x).value.1)
  {
    SignalFramed(x);
    SignalRaises(x);
    OutFrame(x);
    ChooseFrame(x);
    hide Out, Choose, RequestBit, ValidSizes, ValidSender, ValidReceiver;
  }

  lemma PeerWaits(s: System, role: Role, j: nat)
    requires Inv(s) && ValidSystem(s) && WritesNext(s, role) && j < NUM_IDS
    requires Choose(SideOf(s, role)).Shutdown? && SideOf(s, role).tx.transfer[j]
    ensures Waiting(PeerOf(s, role), j, false)
  {
    hide Synced, Coherent, Copied, ValidSender, ValidReceiver, IncomingShutdownQuery, TransfersPending;
    var x, y := SideOf(s, role), PeerOf(s, role);
    assert y.rx.readLock[j];
  }

  /** Steps the code's own guards allow, none of which aborts. */
  ghost predicate OpenRun(ss: seq<System>, acts: seq<Action>, role: Role) {
    && |ss| == |acts| + 1
    && forall i :: 0 <= i < |acts| ==> OpenNext(ss[i], acts[i], ss[i + 1], role)
  }

  ghost predicate OpenNext(s: System, a: Action, s': System, role: Role) {
    ValidSystem(s) && Enabled(s, a) && PeerTimely(s, a, role) && Step(s, a) == Ok(s')
  }

  lemma {:induction false} StaysBroken(ss: seq<System>, acts: seq<Action>, role: Role, k: nat, j: nat)
    requires OpenRun(ss, acts, role) && 0 < k <= |acts| && Broken(ss[1], role, j)
    ensures Broken(ss[k], role, j)
  {
    hide Broken, Step, Enabled, PeerTimely, ValidSystem;
    if k > 1 {
      StaysBroken(ss, acts, role, k - 1, j);
      var s, a := ss[k - 1], acts[k - 1];
      assert OpenNext(s, a, ss[k], role);
      if a.HalfTurn? {
        TurnStaysBroken(s, ss[k], role, j);
      } else {
        OthersStayBroken(s, a, ss[k], role, j);
      }
    }
  }

  /** No clean close: whenever in a reachable state com_shutdown leaves one side although an accepted
      object waits there, then in everything that can follow, short of an abort, the peer goes on
      receiving that object and never sends sighup, as long as its own com_shutdown is in time. So
      either the link aborts or the wait for the peer's sighup never ends. */
  lemma NoCleanClose(ss: seq<System>, acts: seq<Action>, role: Role) returns (j: nat)
    requires OpenRun(ss, acts, role) && |acts| > 0
    requires Inv(ss[0]) && ValidSystem(ss[0]) && WritesNext(ss[0], role) && acts[0].HalfTurn?
    requires Choose(SideOf(ss[0], role)).Shutdown? && !None(SideOf(ss[0], role).tx.transfer)
    ensures forall k :: 0 < k <= |acts| ==>
              var y := PeerOf(ss[k], role);
              j < |y.rx.readLock| && y.rx.readLock[j] && !y.vars.sentSighup
  {
    hide Inv, Broken, Step, Enabled, PeerTimely, Choose, None, ValidSystem, Valid;
    assert OpenNext(ss[0], acts[0], ss[1], role);
    j := BreaksHere(ss[0], role, ss[1]);
    forall k | 0 < k <= |acts|
      ensures var y := PeerOf(ss[k], role);
              j < |y.rx.readLock| && y.rx.readLock[j] && !y.vars.sentSighup
    {
      StaysBroken(ss, acts, role, k, j);
      BrokenIsUnfinished(ss[k], role, j);
    }
  }

  lemma BrokenIsUnfinished(s: System, role: Role, j: nat)
    requires Broken(s, role, j) && j < NUM_IDS
    ensures |PeerOf(s, role).rx.readLock| == NUM_IDS
    ensures PeerOf(s, role).rx.readLock[j] && !PeerOf(s, role).vars.sentSighup
  {
    hide RequestBit, Low6, ValidSizes, ValidSender;
  }
}
