/** The serial endpoint as the object it is: fields and flag arrays changed step by step. Every
    method is tied to the pure function of module Endpoint that says what it does, so what is proved
    about those functions holds of the object. */
module Serial {
  import opened Results
  import opened Bits
  import opened Codec
  import opened Endpoint
  import Pure = Endpoint
  import opened Mirror

  /** A method succeeded with state `now` exactly as `spec` says, or failed with its error. */
  predicate Agrees(r: Result<(), Error>, spec: Result<Endpoint, Error>, now: Endpoint) {
    match r
    case Ok(_) => spec == Ok(now)
    case Err(error) => spec == Err(error)
  }

  method NewArray<T>(n: nat, value: T) returns (a: array<T>)
    ensures fresh(a) && a.Length == n && forall k :: 0 <= k < n ==> a[k] == value
  {
    a := new T[n](_ => value);
  }

  method CopyOf<T>(source: seq<T>) returns (a: array<T>)
    ensures fresh(a) && a[..] == source
  {
    a := new T[|source|](i requires 0 <= i < |source| => source[i]);
  }

  class Serial {
    const role: Role

    var firstRun: bool
    var vars: ComVars
    var incomingRequest: nat
    var waitingConfirmation: nat

    var mcuUpdated: bool
    var fpgaAcknowledge: bool
    var fpgaUpdated: bool
    var mcuAcknowledge: bool

    var receiveLock: bool
    var readDestination: nat
    var readDestinationPos: nat
    var read4minus1: nat
    var readCount: nat
    var readAssembly: nat

    var sendLock: bool
    var writeOrigin: nat
    var writeOriginPos: nat
    var write3plus1: nat
    var writeCount: nat
    const writeAssembly: array<byte>

    const readLock: array<bool>
    const transfer: array<bool>
    const syncMe: array<bool>
    const memory: array<seq<byte>>

    ghost function Parts(): set<object> {
      {this, writeAssembly, readLock, transfer, syncMe, memory}
    }

    predicate Separate() {
      && readLock.Length == transfer.Length == syncMe.Length == NUM_IDS
      && readLock != transfer && readLock != syncMe && transfer != syncMe
      && writeAssembly.Length == 3 && memory.Length <= NUM_IDS
    }

    /** The crossover: each side calls the same four wires by the other names. */
    function Signals(): Wires
      reads this
    {
      if role.Fpga? then Wires(fpgaUpdated, mcuAcknowledge, mcuUpdated, fpgaAcknowledge)
      else Wires(mcuUpdated, fpgaAcknowledge, fpgaUpdated, mcuAcknowledge)
    }

    function Encoding(): Encoder
      reads this, writeAssembly
    {
      Encoder(writeAssembly[..], writeCount)
    }

    function Sending(): Sender
      reads this, writeAssembly, transfer
    {
      Sender(sendLock, writeOrigin, writeOriginPos, write3plus1, Encoding(), transfer[..])
    }

    function Receiving(): Receiver
      reads this, readLock
    {
      Receiver(receiveLock, readDestination, readDestinationPos, read4minus1,
               Decoder(readAssembly, readCount), readLock[..])
    }

    function State(): Endpoint
      reads Parts()
    {
      Endpoint(role, firstRun, vars, Signals(), incomingRequest, waitingConfirmation, Sending(), Receiving(),
               syncMe[..], memory[..])
    }

    ghost predicate Ready()
      reads Parts()
    {
      Separate() && Valid(State())
    }

    constructor (role: Role, objects: seq<seq<byte>>)
      requires ValidSizes(objects)
      ensures Ready()
      ensures fresh(writeAssembly) && fresh(readLock) && fresh(transfer) && fresh(syncMe) && fresh(memory)
      ensures State() == Start(role, objects)
    {
      this.role, firstRun, vars := role, true, FRESH_VARS;
      incomingRequest, waitingConfirmation := NUM_IDS, NUM_IDS;
      mcuUpdated, fpgaAcknowledge, fpgaUpdated, mcuAcknowledge := false, false, false, false;
      receiveLock, readDestination, readDestinationPos := false, NUM_IDS, 0;
      read4minus1, readCount, readAssembly := 0, 0, 0;
      sendLock, writeOrigin, writeOriginPos := false, NUM_IDS, 0;
      write3plus1, writeCount := 0, 0;
      var w: array<byte> := NewArray(3, 0);
      var r := NewArray(NUM_IDS, false);
      var t := NewArray(NUM_IDS, false);
      var y := NewArray(NUM_IDS, false);
      var m := CopyOf(objects);
      writeAssembly, readLock, transfer, syncMe, memory := w, r, t, y, m;
      new;
      hide Valid, Start;
      StartIs(role, objects, readLock[..], transfer[..], syncMe[..], writeAssembly[..]);
    }

    // ----- Signals -----

    method ReadBits(data: byte)
      modifies this
      ensures State() == old(State()).(
                wires := Wires(old(Signals()).requestOut, false, RequestBit(data), AcknowledgeBit(data)))
    {
      if role.Fpga? {
        mcuUpdated, fpgaAcknowledge, mcuAcknowledge := RequestBit(data), AcknowledgeBit(data), false;
      } else {
        fpgaUpdated, mcuAcknowledge, fpgaAcknowledge := RequestBit(data), AcknowledgeBit(data), false;
      }
    }

    method WriteBits(out: byte) returns (r: byte)
      ensures r == SetSignals(out, Signals().requestOut, Signals().ackOut)
    {
      if role.Fpga? {
        r := SetSignals(out, fpgaUpdated, mcuAcknowledge);
      } else {
        r := SetSignals(out, mcuUpdated, fpgaAcknowledge);
      }
    }

    method SendAcknowledge()
      modifies this
      ensures State() == old(State()).(wires := old(Signals()).(ackOut := old(Signals().requestIn || Signals().ackOut)))
    {
      if role.Fpga? {
        if mcuUpdated {
          mcuAcknowledge := true;
        }
      } else {
        if fpgaUpdated {
          fpgaAcknowledge := true;
        }
      }
    }

    method SendRequest()
      modifies this
      ensures State() == old(State()).(wires := old(Signals()).(requestOut := true))
    {
      if role.Fpga? {
        fpgaUpdated := true;
      } else {
        mcuUpdated := true;
      }
    }

    method ReceiveSignals() returns (request: bool, acknowledge: bool)
      modifies this
      ensures request == old(Signals()).requestIn && acknowledge == old(Signals()).ackIn
      ensures State() == old(State()).(
                wires := old(Signals()).(requestOut := old(Signals()).requestOut && !acknowledge))
    {
      acknowledge := false;
      if role.Fpga? {
        request := mcuUpdated;
        if fpgaAcknowledge {
          fpgaUpdated := false;
          acknowledge := true;
        }
      } else {
        request := fpgaUpdated;
        if mcuAcknowledge {
          mcuUpdated := false;
          acknowledge := true;
        }
      }
    }

    // ----- Codec -----

    /** `write`, up to the store into the out buffer. */
    method Write(w: byte) returns (out: byte)
      requires Separate() && Encoding().Valid()
      modifies this, writeAssembly
      ensures var r := WriteByte(old(Encoding()), w, old(Signals()).requestOut, old(Signals()).ackOut);
              State() == old(State()).(tx := old(Sending()).(enc := r.0)) && out == r.1
    {
      out := 0;
      if writeCount < 3 {
        var count := writeCount;
        writeAssembly[count] := w;
        out := WriteBits(Shr(w, (count + 1) * 2));
        if count > 0 {
          out := Overlay(out, Carry(Encoding()));
        }
        writeCount := count + 1;
      } else {
        out := WriteBits(out);
        out := Overlay(out, Carry(Encoding()));
        writeCount := 0;
      }
    }

    /** `read`: false when a round of four is complete. */
    method Read(r: byte) returns (more: bool)
      requires Decoder(readAssembly, readCount).Valid()
      modifies this
      ensures State() == old(State()).(rx := old(Receiving()).(dec := ReadByte(old(Receiving()).dec, r)))
      ensures more <==> old(readCount) < 3
    {
      readAssembly := ReadShift(Decoder(readAssembly, readCount), r);
      more := readCount < 3;
      readCount := if more then readCount + 1 else 0;
    }

    /** `read_flush`. */
    method ReadFlush() returns (bytes: array<byte>)
      requires readAssembly < Pow2(24)
      modifies this
      ensures fresh(bytes) && bytes[..] == Digits(3, old(readAssembly))
      ensures State() == old(State()).(rx := old(Receiving()).(dec := Decoder(0, old(readCount))))
    {
      hide Pow2, Digits;
      bytes := new byte[3];
      BitsetToBytearray(bytes, readAssembly);
      readAssembly := 0;
    }

    // ----- Scans -----

    method TransfersPending() returns (pending: bool)
      requires Ready()
      ensures pending == Pure.TransfersPending(State())
    {
      var j := 0;
      while j < memory.Length
        invariant 0 <= j <= memory.Length
        invariant forall k :: 0 <= k < j ==> !Unsynced(syncMe[..], transfer[..])[k]
      {
        if syncMe[j] && !transfer[j] {
          assert Unsynced(syncMe[..], transfer[..])[j];
          return true;
        }
        j := j + 1;
      }
      return false;
    }

    method WritesPending() returns (pending: bool)
      requires Ready()
      ensures pending == Pure.WritesPending(State())
    {
      var j := 0;
      while j < memory.Length
        invariant 0 <= j <= memory.Length
        invariant forall k :: 0 <= k < j ==> !transfer[..][k]
      {
        if transfer[j] {
          assert transfer[..][j];
          return true;
        }
        j := j + 1;
      }
      return false;
    }

    method ReadsPending() returns (pending: bool)
      requires Ready()
      ensures pending == Pure.ReadsPending(State())
    {
      var j := 0;
      while j < memory.Length
        invariant 0 <= j <= memory.Length
        invariant forall k :: 0 <= k < j ==> !readLock[..][k]
      {
        if readLock[j] {
          assert readLock[..][j];
          return true;
        }
        j := j + 1;
      }
      return false;
    }

    // ----- Objects -----

    /** One of the three calls of `write` in a round that carry data. */
    method SendNext() returns (out: byte)
      requires Separate() && Encoding().Valid()
      requires writeOrigin < memory.Length && writeOriginPos < |memory[writeOrigin]|
      modifies this, writeAssembly
      ensures var tx, wires := old(Sending()), old(Signals());
              var r := WriteByte(tx.enc, old(memory[writeOrigin][writeOriginPos]), wires.requestOut, wires.ackOut);
              && State() == old(State()).(tx := tx.(pos := tx.pos + 1, phase := tx.phase + 1, enc := r.0))
              && out == r.1
    {
      hide WriteByte;
      var data := memory[writeOrigin][writeOriginPos];
      writeOriginPos := writeOriginPos + 1;
      write3plus1 := write3plus1 + 1;
      out := Write(data);
    }

    /** What the fourth one does to the positions: the last one completes the object. */
    method EndRound()
      requires Separate() && writeOrigin < memory.Length
      modifies this, transfer
      ensures State() == old(State()).(tx :=
                var tx := old(Sending());
                if tx.pos == |old(memory[writeOrigin])| then
                  Sender(false, tx.origin, 0, 0, tx.enc, tx.transfer[tx.origin := false])
                else tx.(phase := 0))
    {
      if writeOriginPos == |memory[writeOrigin]| {
        transfer[writeOrigin] := false;
        sendLock := false;
        writeOriginPos := 0;
      }
      write3plus1 := 0;
    }

    /** `write_object`: false when there is no open object. */
    method WriteObject() returns (sent: bool, out: byte)
      requires Ready()
      modifies this, writeAssembly, transfer
      ensures sent == old(sendLock)
      ensures !sent ==> State() == old(State())
      ensures sent ==> (State(), out) == SendData(old(State()))
    {
      hide WriteByte, ValidReceiver;
      sent := sendLock;
      out := 0;
      if sendLock {
        assert ValidSender(Sending(), memory[..]) && writeOrigin < |memory[..]|;
        if write3plus1 < 3 {
          out := SendNext();
        } else {
          EndRound();
          out := Write(NO_DATA);
        }
      }
    }

    /** The scan of `read_object`. */
    method Open() returns (r: Result<(), Error>)
      requires Ready()
      modifies this
      ensures r.Ok? ==>
                && OpenRead(old(Receiving()), memory.Length).Ok?
                && State() == old(State()).(rx := OpenRead(old(Receiving()), memory.Length).value)
      ensures r.Err? ==> OpenRead(old(Receiving()), memory.Length) == Err(r.error)
      ensures r.Ok? && !old(receiveLock) ==>
                && receiveLock && readDestination < memory.Length && readLock[readDestination]
                && forall k :: 0 <= k < readDestination ==> !readLock[k]
    {
      if !receiveLock {
        var j := 0;
        while j < memory.Length
          invariant 0 <= j <= memory.Length
          invariant State() == old(State())
          invariant forall k :: 0 <= k < j ==> !readLock[..][k]
        {
          if readLock[j] {
            assert readLock[..][j];
            if readDestinationPos != 0 {
              return Err(PreviousReadobjectHasNotFinished);
            }
            receiveLock := true;
            readDestination := j;
            return Ok(());
          }
          j := j + 1;
        }
        return Err(NoIdleReceivedAndNoReceivelockObtained);
      }
      return Ok(());
    }

    /** Every fourth byte: store the three bytes, and complete the object with the last of them. */
    method StoreRound()
      requires Separate() && readAssembly < Pow2(24)
      requires readDestination < memory.Length && readDestinationPos + 3 <= |memory[readDestination]|
      modifies this, readLock, memory
      ensures var rx, target := old(Receiving()), old(memory[readDestination]);
              State() == old(State()).(
                rx :=
                  if rx.pos + 3 == |target| then
                    Receiver(false, rx.dest, 0, 0, Decoder(0, rx.dec.count), rx.readLock[rx.dest := false])
                  else rx.(pos := rx.pos + 3, phase := 0, dec := Decoder(0, rx.dec.count)),
                objects := old(memory[..])[rx.dest := Store(target, rx.pos, Digits(3, rx.dec.assembly))])
    {
      hide Digits, Pow2;
      var bytes := ReadFlush();
      var pos, target := readDestinationPos, memory[readDestination];
      memory[readDestination] := Store(target, pos, bytes[..]);
      readDestinationPos := pos + 3;
      if readDestinationPos == |memory[readDestination]| {
        readLock[readDestination] := false;
        receiveLock := false;
        readDestinationPos := 0;
      }
      read4minus1 := 0;
    }

    /** `read_object` with the receive lock held. */
    method Take(data: byte)
      requires Ready() && receiveLock
      modifies this, readLock, memory
      ensures var r := TakeByte(old(Receiving()), old(memory[..]), data);
              State() == old(State()).(rx := r.0, objects := r.1)
    {
      hide ReadByte, ValidSender, Digits, Pow2;
      assert ValidReceiver(Receiving(), memory[..]) && readDestination < |memory[..]|;
      var more := Read(data);
      if read4minus1 < 3 {
        read4minus1 := read4minus1 + 1;
      } else {
        StoreRound();
      }
    }

    method ReadObject(data: byte) returns (r: Result<(), Error>)
      requires Ready()
      modifies this, readLock, memory
      ensures Agrees(r, Pure.ReadObject(old(State()), data), State())
    {
      hide TakeByte;
      r := Open();
      if r.Ok? {
        Take(data);
      }
    }

    // ----- IN -----

    /** `stop_notifier`. */
    method StopNotifier()
      modifies this
      ensures State() == Pure.StopNotifier(old(State()))
    {
      vars := vars.(descendantsNotified := true);
    }

    /** `emit_readlocked` and `emit_transfer`: the request for object j is withdrawn. */
    method ClearSync(j: nat)
      requires Separate() && j < NUM_IDS
      modifies syncMe
      ensures State() == old(State()).(sync := old(syncMe[..])[j := false])
    {
      syncMe[j] := false;
    }

    method ReadHook(data: byte) returns (r: Result<(), Error>)
      requires Ready()
      modifies this
      ensures Agrees(r, Pure.ReadHook(old(State()), data), State())
    {
      hide Valid, Low6, Shl, Shr;
      var code: byte := Low6(data);
      assert code == Shr(Shl(data, 2, 8), 2) by { SignalsCut(data); }
      if code == POWERON {
        if vars.acknowledgeRequested || vars.receivedAcknowledge {
          return Err(PreviousTransferRequestsWereNotCleared);
        }
        vars := FRESH_VARS;
        if receiveLock || readCount != 0 {
          return Err(HotplugAfterUnexpectedShutdown);
        }
      } else if code == IDLE {
        if vars.receivedSighup {
          vars := vars.(receivedIdle := true);
        }
      } else if code == SHUTDOWN {
        if vars.receivedSighup {
          return Err(NotIdleAfterSighup);
        }
        if vars.receivedComShutdown {
          return Err(DuplicateComShutdown);
        }
        if role.Mcu? {
          StopNotifier();
        }
        vars := vars.(receivedComShutdown := true);
      } else if code == SIGHUP {
        if vars.receivedSighup {
          return Err(DuplicateSighup);
        }
        vars := vars.(receivedSighup := true);
      } else {
        if vars.receivedSighup {
          return Err(NotIdleAfterSighup);
        }
        incomingRequest := RequestedId(code);
      }
      return Ok(());
    }

    method TransferHook() returns (r: Result<(), Error>)
      requires Ready()
      modifies this, readLock, syncMe
      ensures Agrees(r, Pure.TransferHook(old(State())), State())
    {
      hide Valid;
      var j := incomingRequest;
      if j < NUM_IDS && j != waitingConfirmation {
        if readLock[j] {
          return Err(DuplicateReadlockRequest);
        }
        if transfer[j] {
          return Err(SyncedObjectsAreNotSupposedToHaveaTransfer);
        }
        ClearSync(j);
        readLock[j] := true;
        SendAcknowledge();
      }
      return Ok(());
    }

    method AcknowledgeHook() returns (r: Result<(), Error>)
      requires Ready()
      modifies this, transfer, syncMe
      ensures Agrees(r, Pure.AcknowledgeHook(old(State())), State())
    {
      hide Valid;
      var j := waitingConfirmation;
      if j < NUM_IDS {
        if readLock[j] {
          return Err(ReceivedATransferAcknowledgeOnReadlockedObject);
        }
        if transfer[j] {
          return Err(ReceivedADuplicateTransferAcknowledgeOnObjectInTransfer);
        }
        transfer[j] := true;
        ClearSync(j);
      }
      return Ok(());
    }

    /** The part of `event_loop` after `transfer_hook`. */
    method Acknowledge() returns (r: Result<(), Error>)
      requires Ready()
      modifies this, transfer, syncMe
      ensures Agrees(r, Pure.Acknowledge(old(State())), State())
    {
      hide Valid, Pure.AcknowledgeHook;
      if vars.receivedAcknowledge {
        if !vars.acknowledgeRequested {
          return Err(AcknowledgeReceivedWithoutAnyRequest);
        }
        r := AcknowledgeHook();
        if r.Ok? {
          vars := vars.(acknowledgeRequested := false);
        }
      } else if vars.acknowledgeRequested {
        return Err(PreviousTransferHasNotBeenAcknowledged);
      } else {
        return Ok(());
      }
    }

    /** The first lines of IN: `read_bits` and `receive_signals`. */
    method TakeSignals(data: byte)
      requires Ready()
      modifies this
      ensures State() == Pure.ReceiveSignals(old(State()), data)
    {
      hide Valid, RequestBit, AcknowledgeBit;
      ReadBits(data);
      var request, acknowledge := ReceiveSignals();
      vars := vars.(receivedRequest := request, receivedAcknowledge := acknowledge, receivedIdle := false);
      incomingRequest := NUM_IDS;
    }

    /** The IN half of a turn. */
    method In(data: byte) returns (r: Result<(), Error>)
      requires Ready()
      modifies Parts()
      ensures Agrees(r, Pure.In(old(State()), data), State())
    {
      hide ValidSizes, ValidSender, ValidReceiver, RequestBit, AcknowledgeBit, Pure.ReadHook, Pure.ReadObject,
           Pure.TransferHook, Pure.Acknowledge;
      if firstRun {
        return Ok(());
      }
      TakeSignals(data);
      if vars.receivedRequest {
        r := ReadHook(data);
      } else {
        r := ReadObject(data);
      }
      if r.Err? { return; }
      r := TransferHook();
      if r.Err? { return; }
      r := Acknowledge();
    }

    // ----- OUT -----

    method IncomingShutdownQuery() returns (yes: bool)
      requires Ready()
      ensures yes == Pure.IncomingShutdownQuery(State())
    {
      hide ValidSizes, ValidSender, ValidReceiver, Pure.TransfersPending;
      var pending := TransfersPending();
      yes := (role.Mcu? ==> vars.receivedComShutdown) && !pending && !vars.acknowledgeRequested
        && !vars.receivedAcknowledge && vars.descendantsNotified;
    }

    method OutgoingSighupQuery() returns (yes: bool)
      requires Ready()
      ensures yes == Pure.OutgoingSighupQuery(State())
    {
      hide ValidSizes, ValidSender, ValidReceiver, Pure.ReadsPending, Pure.WritesPending;
      var reading := ReadsPending();
      var writing := WritesPending();
      yes := (if role.Fpga? then vars.sentComShutdown && vars.receivedComShutdown else vars.receivedSighup)
        && !reading && !writing;
    }

    /** `send_poweronRequest`, `send_comshutdownRequest`, `send_sighupRequest` and `send_idleRequest`
        up to the flag each of them sets. */
    method SendCode(code: byte) returns (out: byte)
      modifies this
      ensures (State(), out) == Send(old(State()), code)
    {
      hide SetSignals;
      SendRequest();
      out := WriteBits(code);
    }

    method SendTransferRequest(item: nat) returns (out: byte)
      requires item < NUM_IDS
      modifies this
      ensures (State(), out) == Send(old(State()), item + LOWER_STATES)
    {
      hide Overlay, SetSignals;
      SendRequest();
      out := WriteBits(0);
      CodeOverlay(item + LOWER_STATES, Signals().requestOut, Signals().ackOut);
      out := Overlay(out, item + LOWER_STATES);
    }

    method AskFor(j: nat) returns (out: byte)
      requires j < NUM_IDS
      modifies this
      ensures waitingConfirmation == j
      ensures var e := old(State());
              (State(), out) == Send(e.(waiting := j, vars := e.vars.(acknowledgeRequested := true)), j + LOWER_STATES)
    {
      hide SetSignals;
      waitingConfirmation := j;
      vars := vars.(acknowledgeRequested := true);
      out := SendTransferRequest(j);
    }

    method GetFirstTransfer() returns (r: Result<bool, Error>, out: byte)
      requires Ready()
      modifies this
      ensures r == Ok(true) ==>
                && waitingConfirmation < memory.Length
                && syncMe[waitingConfirmation] && !transfer[waitingConfirmation]
                && forall k :: 0 <= k < waitingConfirmation ==> !syncMe[k] || transfer[k]
      ensures r == Ok(false) ==> forall k :: 0 <= k < memory.Length ==> !syncMe[k] || transfer[k]
      ensures var e, j := old(State()), FirstUnsynced(old(State()));
              if j == |e.objects| then r == Ok(false) && State() == e
              else if e.rx.readLock[j] then r == Err(SyncedStatusHasNotBeenOverridenWhenReadlockWasAcquired)
              else
                && r == Ok(true)
                && (State(), out)
                   == Send(e.(waiting := j, vars := e.vars.(acknowledgeRequested := true)), j + LOWER_STATES)
    {
      hide ValidSender, ValidReceiver, Send, Lowest;
      assert |syncMe[..]| == |transfer[..]| == |readLock[..]| == NUM_IDS && memory.Length <= NUM_IDS;
      out := 0;
      var j := 0;
      while j < memory.Length
        invariant 0 <= j <= memory.Length
        invariant State() == old(State())
        invariant forall k :: 0 <= k < j ==> !Unsynced(syncMe[..], transfer[..])[k]
        invariant forall k :: 0 <= k < j ==> !syncMe[k] || transfer[k]
      {
        if syncMe[j] && !transfer[j] {
          assert Unsynced(syncMe[..], transfer[..])[j];
          assert j == FirstUnsynced(State());
          if readLock[j] {
            return Err(SyncedStatusHasNotBeenOverridenWhenReadlockWasAcquired), out;
          }
          out := AskFor(j);
          return Ok(true), out;
        }
        j := j + 1;
      }
      return Ok(false), out;
    }

    method GetFirstSyncObject() returns (r: Result<bool, Error>)
      requires Ready()
      modifies this
      ensures r == Ok(true) ==>
                && sendLock && writeOrigin < memory.Length && transfer[writeOrigin]
                && forall k :: 0 <= k < writeOrigin ==> !transfer[k]
      ensures r == Ok(false) ==> forall k :: 0 <= k < memory.Length ==> !transfer[k]
      ensures var e, j := old(State()), FirstTransfer(old(State()));
              if j == |e.objects| then r == Ok(false) && State() == e
              else if e.rx.readLock[j] then r == Err(FoundATransferObjectWhichIsReadlocked)
              else if e.tx.pos != 0 then r == Err(PreviousObjectWriteHasNotBeenCompleted)
              else r == Ok(true) && State() == e.(tx := Opening(e.tx, j))
    {
      hide ValidSender, ValidReceiver;
      assert |syncMe[..]| == |transfer[..]| == |readLock[..]| == NUM_IDS && memory.Length <= NUM_IDS;
      var j := 0;
      while j < memory.Length
        invariant 0 <= j <= memory.Length
        invariant State() == old(State())
        invariant forall k :: 0 <= k < j ==> !transfer[..][k]
      {
        if transfer[j] {
          assert transfer[..][j];
          assert j == FirstTransfer(State());
          if readLock[j] {
            return Err(FoundATransferObjectWhichIsReadlocked);
          }
          if writeOriginPos != 0 {
            return Err(PreviousObjectWriteHasNotBeenCompleted);
          }
          sendLock := true;
          writeOrigin := j;
          return Ok(true);
        }
        j := j + 1;
      }
      return Ok(false);
    }

    /** `write_hook`: true when it has written the byte of this turn. */
    method WriteHook() returns (r: Result<bool, Error>, out: byte)
      requires Ready() && waitingConfirmation == NUM_IDS
      modifies this
      ensures var e := old(State());
              match Choose(e)
              case PowerOn =>
                r == Ok(true) && State() == Send(e, POWERON).0.(firstRun := false) && out == Send(e, POWERON).1
              case Data => r == Ok(false) && State() == e
              case Request(j) =>
                if e.rx.readLock[j] then r == Err(SyncedStatusHasNotBeenOverridenWhenReadlockWasAcquired)
                else
                  && r == Ok(true)
                  && (State(), out)
                     == Send(e.(waiting := j, vars := e.vars.(acknowledgeRequested := true)), j + LOWER_STATES)
              case Shutdown =>
                && r == Ok(true)
                && State() == Send(e, SHUTDOWN).0.(vars := e.vars.(sentComShutdown := true))
                && out == Send(e, SHUTDOWN).1
              case Transfer(j) =>
                if e.rx.readLock[j] then r == Err(FoundATransferObjectWhichIsReadlocked)
                else if e.tx.pos != 0 then r == Err(PreviousObjectWriteHasNotBeenCompleted)
                else r == Ok(false) && State() == e.(tx := Opening(e.tx, j))
              case Sighup =>
                && r == Ok(true)
                && State() == Send(e, SIGHUP).0.(vars := e.vars.(sentSighup := true)) && out == Send(e, SIGHUP).1
              case Idle => r == Ok(false) && State() == e
    {
      hide ValidSender, ValidReceiver, ValidSizes, SetSignals, Pure.IncomingShutdownQuery,
           Pure.OutgoingSighupQuery, FirstUnsynced, FirstTransfer;
      out := 0;
      if firstRun {
        out := SendCode(POWERON);
        firstRun := false;
        return Ok(true), out;
      }
      if sendLock {
        return Ok(false), out;
      }
      if !vars.sentComShutdown {
        r, out := GetFirstTransfer();
        if r.Err? || r.value { return; }
      }
      var shutdown := IncomingShutdownQuery();
      if shutdown && !vars.sentComShutdown {
        out := SendCode(SHUTDOWN);
        vars := vars.(sentComShutdown := true);
        return Ok(true), out;
      }
      r := GetFirstSyncObject();
      if r.Err? { return; }
      if r.value {
        return Ok(false), out;
      }
      var sighup := OutgoingSighupQuery();
      if sighup && !vars.sentSighup {
        out := SendCode(SIGHUP);
        vars := vars.(sentSighup := true);
        return Ok(true), out;
      }
      return Ok(false), out;
    }

    /** `write_object`, or `send_idleRequest` when no object is open. */
    method SendObjectOrIdle() returns (out: byte)
      requires Ready()
      modifies this, writeAssembly, transfer
      ensures var e := old(State());
              if old(sendLock) then (State(), out) == SendData(e)
              else
                && State() == Send(e, IDLE).0.(vars := e.vars.(sentIdle := e.vars.sentIdle || e.vars.sentSighup))
                && out == Send(e, IDLE).1
    {
      hide ValidSender, ValidReceiver, ValidSizes, SetSignals, SendData;
      var sent;
      sent, out := WriteObject();
      if !sent {
        out := SendCode(IDLE);
        if vars.sentSighup {
          vars := vars.(sentIdle := true);
        }
      }
    }

    /** The OUT half of a turn. */
    method Out() returns (r: Result<byte, Error>)
      requires Ready()
      modifies Parts()
      ensures match r
              case Ok(out) => Pure.Out(old(State())) == Ok((State(), out))
              case Err(error) => Pure.Out(old(State())) == Err(error)
    {
      OutIs(State());
      ghost var e := State();
      waitingConfirmation := NUM_IDS;
      assert State() == e.(waiting := NUM_IDS);
      assert Ready();
      hide Valid, Send, SendData, Choose, Pure.Out, FirstTransfer, FirstUnsynced, Signals, Encoding, Sending, Receiving;
      var done, out := WriteHook();
      if done.Err? {
        return Err(done.error);
      }
      if !done.value {
        out := SendObjectOrIdle();
      }
      return Ok(out);
    }
  }

  /** `Out` restated after `waitingConfirmation` has been reset. */
  lemma OutIs(e: Endpoint)
    requires Valid(e)
    ensures var e0 := e.(waiting := NUM_IDS);
            && Valid(e0)
            && Choose(e0) == Choose(e)
            && match Choose(e)
               case PowerOn =>
                 Pure.Out(e) == Ok((Send(e0, POWERON).0.(firstRun := false), Send(e0, POWERON).1))
               case Data => e.tx.lock && Pure.Out(e) == Ok(SendData(e0))
               case Request(j) =>
                 if e.rx.readLock[j] then Pure.Out(e) == Err(SyncedStatusHasNotBeenOverridenWhenReadlockWasAcquired)
                 else
                   Pure.Out(e)
                   == Ok(Send(e.(waiting := j, vars := e.vars.(acknowledgeRequested := true)), j + LOWER_STATES))
               case Shutdown =>
                 Pure.Out(e)
                 == Ok((Send(e0, SHUTDOWN).0.(vars := e.vars.(sentComShutdown := true)), Send(e0, SHUTDOWN).1))
               case Transfer(j) =>
                 if e.rx.readLock[j] then Pure.Out(e) == Err(FoundATransferObjectWhichIsReadlocked)
                 else if e.tx.pos != 0 then Pure.Out(e) == Err(PreviousObjectWriteHasNotBeenCompleted)
                 else
                   var e1 := e0.(tx := Opening(e.tx, j));
                   Valid(e1) && Pure.Out(e) == Ok(SendData(e1))
               case Sighup =>
                 Pure.Out(e) == Ok((Send(e0, SIGHUP).0.(vars := e.vars.(sentSighup := true)), Send(e0, SIGHUP).1))
               case Idle =>
                 && !e.tx.lock
                 && Pure.Out(e)
                    == Ok((Send(e0, IDLE).0.(vars := e.vars.(sentIdle := e.vars.sentIdle || e.vars.sentSighup)),
                           Send(e0, IDLE).1))
  {
    hide ValidSizes, ValidSender, ValidReceiver, SendData, SetSignals, Choose;
    ChooseIgnoresWaiting(e);
    OpeningIsValid(e);
  }

  lemma StartIs(role: Role, objects: seq<seq<byte>>, readLock: seq<bool>, transfer: seq<bool>,
                sync: seq<bool>, assembly: seq<byte>)
    requires ValidSizes(objects)
    requires |readLock| == |transfer| == |sync| == NUM_IDS && None(readLock) && None(transfer) && None(sync)
    requires |assembly| == 3 && forall k :: 0 <= k < 3 ==> assembly[k] == 0
    ensures Valid(Start(role, objects))
    ensures Start(role, objects) ==
              Endpoint(role, true, FRESH_VARS, Wires(false, false, false, false), NUM_IDS, NUM_IDS,
                       Sender(false, NUM_IDS, 0, 0, Encoder(assembly, 0), transfer),
                       Receiver(false, NUM_IDS, 0, 0, Decoder(0, 0), readLock), sync, objects)
  {
    assert assembly == [0, 0, 0];
    var off := seq(NUM_IDS, _ => false);
    assert readLock == off && transfer == off && sync == off;
  }

  lemma ChooseIgnoresWaiting(e: Endpoint)
    requires Valid(e)
    ensures Choose(e.(waiting := NUM_IDS)) == Choose(e)
    ensures Valid(e.(waiting := NUM_IDS))
  {
    hide ValidSizes, ValidSender, ValidReceiver;
  }

  lemma OpeningIsValid(e: Endpoint)
    requires Valid(e)
    ensures Choose(e).Transfer? && e.tx.pos == 0 ==> Valid(e.(waiting := NUM_IDS, tx := Opening(e.tx, Choose(e).id)))
    ensures Choose(e).Data? ==> e.tx.lock
    ensures Choose(e).Idle? ==> !e.tx.lock
  {
    hide ValidReceiver, TransfersPending, WritesPending, IncomingShutdownQuery, OutgoingSighupQuery;
  }

  /** The exclusive-or of `send_transferRequest` is no more than setting the signal bits. */
  lemma CodeOverlay(code: byte, request: bool, acknowledge: bool)
    requires code < 64
    ensures Overlay(SetSignals(0, request, acknowledge), code) == SetSignals(code, request, acknowledge)
  {
    SignalsOnTop(0, request, acknowledge);
    SignalsOnTop(code, request, acknowledge);
    Xor3(SignalBits(request, acknowledge), code);
  }

  /** Shifting the signal bits out and back leaves the six bits of the code. */
  lemma SignalsCut(data: byte)
    ensures Shr(Shl(data, 2, 8), 2) == Low6(data)
  {
    Shifts(data);
  }
}
