/** One side of the serial link as a pure state machine: what `Serial::event_loop` computes
    from the byte it reads (IN) and which byte it writes (OUT), branch by branch. */
module Endpoint {
  import opened Results
  import opened Bits
  import opened Codec

  // ----- Constants of DMADescriptor.hpp and SerialNotifier.hpp -----

  const LOWER_STATES := 1
  const UPPER_STATES := 5
  const NUM_IDS := 64 - UPPER_STATES - LOWER_STATES

  const SIGHUP: byte := 0x3D
  const POWERON: byte := 0x3E
  const IDLE: byte := 0x3B
  const SHUTDOWN: byte := 0x3C

  /** The aborts `event_loop` can reach, by the names of error.cpp. */
  datatype Error =
    | HotplugAfterUnexpectedShutdown
    | PreviousTransferRequestsWereNotCleared
    | DuplicateComShutdown
    | DuplicateSighup
    | NotIdleAfterSighup
    | DuplicateReadlockRequest
    | SyncedObjectsAreNotSupposedToHaveaTransfer
    | AcknowledgeReceivedWithoutAnyRequest
    | ReceivedATransferAcknowledgeOnReadlockedObject
    | ReceivedADuplicateTransferAcknowledgeOnObjectInTransfer
    | PreviousTransferHasNotBeenAcknowledged
    | SyncedStatusHasNotBeenOverridenWhenReadlockWasAcquired
    | FoundATransferObjectWhichIsReadlocked
    | PreviousObjectWriteHasNotBeenCompleted
    | PreviousReadobjectHasNotFinished
    | NoIdleReceivedAndNoReceivelockObtained

  datatype Role = Fpga | Mcu

  /** `com_vars`. */
  datatype ComVars = ComVars(
    receivedIdle: bool,
    sentIdle: bool,
    receivedComShutdown: bool,
    sentComShutdown: bool,
    receivedSighup: bool,
    sentSighup: bool,
    acknowledgeRequested: bool,
    receivedRequest: bool,
    receivedAcknowledge: bool,
    descendantsNotified: bool)

  const FRESH_VARS := ComVars(false, false, false, false, false, false, false, false, false, false)

  /** The four signal fields under crossover-neutral names. For the FPGA `requestOut` is
      fpga_updated, `ackOut` mcu_acknowledge, `requestIn` mcu_updated and `ackIn` fpga_acknowledge;
      for the MCU the two prefixes change places. */
  datatype Wires = Wires(requestOut: bool, ackOut: bool, requestIn: bool, ackIn: bool)

  /** The writing half of `BlockWiseTransfer`; `phase` is write3plus1. */
  datatype Sender = Sender(
    lock: bool,
    origin: nat,
    pos: nat,
    phase: nat,
    enc: Encoder,
    transfer: seq<bool>)

  /** The reading half of `BlockWiseTransfer`; `phase` is read4minus1. */
  datatype Receiver = Receiver(
    lock: bool,
    dest: nat,
    pos: nat,
    phase: nat,
    dec: Decoder,
    readLock: seq<bool>)

  datatype Endpoint = Endpoint(
    role: Role,
    firstRun: bool,
    vars: ComVars,
    wires: Wires,
    incoming: nat,
    waiting: nat,
    tx: Sender,
    rx: Receiver,
    sync: seq<bool>,
    objects: seq<seq<byte>>)

  // ----- Well-formed endpoints -----

  predicate ValidSizes(objects: seq<seq<byte>>) {
    |objects| <= NUM_IDS && forall j :: 0 <= j < |objects| ==> |objects[j]| > 0 && |objects[j]| % 3 == 0
  }

  predicate ValidSender(tx: Sender, objects: seq<seq<byte>>) {
    && |tx.transfer| == NUM_IDS
    && tx.enc.Valid() && tx.enc.count == tx.phase
    && (!tx.lock ==> tx.pos == 0 && tx.phase == 0)
    && (tx.lock ==>
          && tx.origin < |objects|
          && (tx.pos - tx.phase) % 3 == 0
          && tx.phase <= tx.pos <= |objects[tx.origin]|
          && (tx.phase < 3 ==> tx.pos < |objects[tx.origin]|))
  }

  predicate ValidReceiver(rx: Receiver, objects: seq<seq<byte>>) {
    && |rx.readLock| == NUM_IDS
    && rx.dec.Valid() && rx.dec.count == rx.phase
    && (!rx.lock ==> rx.pos == 0 && rx.phase == 0)
    && (rx.lock ==>
          && rx.dest < |objects|
          && rx.pos % 3 == 0
          && rx.pos < |objects[rx.dest]|)
  }

  /** What the fields of an endpoint keep by themselves, whatever bytes arrive. */
  predicate Valid(e: Endpoint) {
    && ValidSizes(e.objects)
    && |e.sync| == NUM_IDS
    && ValidSender(e.tx, e.objects)
    && ValidReceiver(e.rx, e.objects)
  }

  // ----- Scans -----

  /** The lowest id in lo..hi whose flag is set, or hi. */
  function Lowest(flags: seq<bool>, lo: nat, hi: nat): (j: nat)
    requires lo <= hi <= |flags|
    ensures lo <= j <= hi
    ensures j < hi ==> flags[j]
    ensures forall k :: lo <= k < j ==> !flags[k]
    decreases hi - lo
  {
    if lo == hi || flags[lo] then lo else Lowest(flags, lo + 1, hi)
  }

  predicate None(flags: seq<bool>) {
    forall j :: 0 <= j < |flags| ==> !flags[j]
  }

  /** Ids whose sync is requested and whose transfer has not been granted. */
  function Unsynced(sync: seq<bool>, transfer: seq<bool>): (s: seq<bool>)
    requires |sync| == |transfer|
    ensures |s| == |sync|
    ensures forall j :: 0 <= j < |s| ==> s[j] == (sync[j] && !transfer[j])
  {
    seq(|sync|, j requires 0 <= j < |sync| => sync[j] && !transfer[j])
  }

  /** `getFirstTransfer`'s choice. */
  function FirstUnsynced(e: Endpoint): (j: nat)
    requires Valid(e)
    ensures j <= |e.objects|
    ensures j < |e.objects| ==> e.sync[j] && !e.tx.transfer[j]
    ensures forall k :: 0 <= k < j ==> e.sync[k] ==> e.tx.transfer[k]
  {
    var unsynced := Unsynced(e.sync, e.tx.transfer);
    var j := Lowest(unsynced, 0, |e.objects|);
    assert forall k :: 0 <= k < |e.objects| ==> (unsynced[k] <==> e.sync[k] && !e.tx.transfer[k]);
    j
  }

  /** `getFirstSyncObject`'s choice. */
  function FirstTransfer(e: Endpoint): (j: nat)
    requires Valid(e)
    ensures j <= |e.objects|
    ensures j < |e.objects| ==> e.tx.transfer[j]
    ensures forall k :: 0 <= k < j ==> !e.tx.transfer[k]
  {
    Lowest(e.tx.transfer, 0, |e.objects|)
  }

  /** `read_object`'s choice. */
  function FirstReadLock(rx: Receiver, count: nat): (j: nat)
    requires |rx.readLock| == NUM_IDS && count <= NUM_IDS
    ensures j <= count
    ensures j < count ==> rx.readLock[j]
    ensures forall k :: 0 <= k < j ==> !rx.readLock[k]
  {
    Lowest(rx.readLock, 0, count)
  }

  predicate TransfersPending(e: Endpoint)
    requires Valid(e)
  {
    FirstUnsynced(e) < |e.objects|
  }

  predicate WritesPending(e: Endpoint)
    requires Valid(e)
  {
    FirstTransfer(e) < |e.objects|
  }

  predicate ReadsPending(e: Endpoint)
    requires Valid(e)
  {
    FirstReadLock(e.rx, |e.objects|) < |e.objects|
  }

  // ----- IN -----

  /** `read_bits` and `receive_signals`. */
  function ReceiveSignals(e: Endpoint, data: byte): Endpoint {
    var request, acknowledge := RequestBit(data), AcknowledgeBit(data);
    e.(wires := Wires(e.wires.requestOut && !acknowledge, false, request, acknowledge),
       vars := e.vars.(receivedRequest := request, receivedAcknowledge := acknowledge, receivedIdle := false),
       incoming := NUM_IDS)
  }

  predicate IsControl(code: byte) {
    code == POWERON || code == IDLE || code == SHUTDOWN || code == SIGHUP
  }

  /** `receive_transferRequest`, in an unsigned char. */
  function RequestedId(code: byte): byte {
    (code - LOWER_STATES) % 256
  }

  /** `stop_notifier`. */
  function StopNotifier(e: Endpoint): Endpoint {
    e.(vars := e.vars.(descendantsNotified := true))
  }

  /** `read_hook`: a control byte or a transfer request. */
  function ReadHook(e: Endpoint, data: byte): (r: Result<Endpoint, Error>)
    requires Valid(e)
    ensures r.Ok? ==> Valid(r.value)
  {
    var code := Low6(data);
    if code == POWERON then
      if e.vars.acknowledgeRequested || e.vars.receivedAcknowledge then Err(PreviousTransferRequestsWereNotCleared)
      else if e.rx.lock || e.rx.dec.count != 0 then Err(HotplugAfterUnexpectedShutdown)
      else Ok(e.(vars := FRESH_VARS))
    else if code == IDLE then
      Ok(if e.vars.receivedSighup then e.(vars := e.vars.(receivedIdle := true)) else e)
    else if code == SHUTDOWN then
      if e.vars.receivedSighup then Err(NotIdleAfterSighup)
      else if e.vars.receivedComShutdown then Err(DuplicateComShutdown)
      else
        var e' := if e.role.Mcu? then StopNotifier(e) else e;
        Ok(e'.(vars := e'.vars.(receivedComShutdown := true)))
    else if code == SIGHUP then
      if e.vars.receivedSighup then Err(DuplicateSighup)
      else Ok(e.(vars := e.vars.(receivedSighup := true)))
    else if e.vars.receivedSighup then Err(NotIdleAfterSighup)
    else Ok(e.(incoming := RequestedId(code)))
  }

  /** `read_object`, first part: take the lowest read-locked object. */
  function OpenRead(rx: Receiver, count: nat): (r: Result<Receiver, Error>)
    requires |rx.readLock| == NUM_IDS && count <= NUM_IDS
  {
    if rx.lock then Ok(rx)
    else
      var j := FirstReadLock(rx, count);
      if j == count then Err(NoIdleReceivedAndNoReceivelockObtained)
      else if rx.pos != 0 then Err(PreviousReadobjectHasNotFinished)
      else Ok(rx.(lock := true, dest := j))
  }

  /** Overwrite the bytes of `o` from `pos` on. */
  function Store(o: seq<byte>, pos: nat, bytes: seq<byte>): (o': seq<byte>)
    requires pos + |bytes| <= |o|
    ensures |o'| == |o|
    ensures o'[..pos + |bytes|] == o[..pos] + bytes
  {
    o[..pos] + bytes + o[pos + |bytes|..]
  }

  lemma RoundLeft(pos: nat, size: nat)
    requires pos % 3 == 0 && size % 3 == 0 && pos < size
    ensures pos + 3 <= size && (pos + 3) % 3 == 0
  {
  }

  /** `read_object`, second part: one byte; every fourth one stores three bytes. */
  function TakeByte(rx: Receiver, objects: seq<seq<byte>>, data: byte): (r: (Receiver, seq<seq<byte>>))
    requires ValidSizes(objects) && ValidReceiver(rx, objects) && rx.lock
    ensures |r.1| == |objects| && forall j :: 0 <= j < |objects| ==> |r.1[j]| == |objects[j]|
    ensures ValidSizes(r.1) && ValidReceiver(r.0, r.1)
  {
    RoundLeft(rx.pos, |objects[rx.dest]|);
    var dec := ReadByte(rx.dec, data);
    if rx.phase < 3 then
      (rx.(phase := rx.phase + 1, dec := dec), objects)
    else
      var o := objects[rx.dest];
      var objects' := objects[rx.dest := Store(o, rx.pos, Digits(3, dec.assembly))];
      if rx.pos + 3 == |o| then
        (Receiver(false, rx.dest, 0, 0, EMPTY, rx.readLock[rx.dest := false]), objects')
      else
        (rx.(pos := rx.pos + 3, phase := 0, dec := EMPTY), objects')
  }

  /** `read_object`. */
  function ReadObject(e: Endpoint, data: byte): (r: Result<Endpoint, Error>)
    requires Valid(e)
    ensures r.Ok? ==> Valid(r.value)
  {
    var rx :- OpenRead(e.rx, |e.objects|);
    var (rx', objects') := TakeByte(rx, e.objects, data);
    Ok(e.(rx := rx', objects := objects'))
  }

  /** `transfer_hook`: grant an incoming request, unless it crosses the same request of ours.
      `emit_readlocked` cancels a local sync request of the object. */
  function TransferHook(e: Endpoint): (r: Result<Endpoint, Error>)
    requires Valid(e)
    ensures r.Ok? ==> Valid(r.value)
  {
    var j := e.incoming;
    if j < NUM_IDS && j != e.waiting then
      if e.rx.readLock[j] then Err(DuplicateReadlockRequest)
      else if e.tx.transfer[j] then Err(SyncedObjectsAreNotSupposedToHaveaTransfer)
      else
        Ok(e.(sync := e.sync[j := false],
              rx := e.rx.(readLock := e.rx.readLock[j := true]),
              wires := e.wires.(ackOut := e.wires.requestIn || e.wires.ackOut)))
    else Ok(e)
  }

  /** `acknowledge_hook`: the peer granted our request. */
  function AcknowledgeHook(e: Endpoint): (r: Result<Endpoint, Error>)
    requires Valid(e)
    ensures r.Ok? ==> Valid(r.value)
  {
    var j := e.waiting;
    if j < NUM_IDS then
      if e.rx.readLock[j] then Err(ReceivedATransferAcknowledgeOnReadlockedObject)
      else if e.tx.transfer[j] then Err(ReceivedADuplicateTransferAcknowledgeOnObjectInTransfer)
      else Ok(e.(tx := e.tx.(transfer := e.tx.transfer[j := true]), sync := e.sync[j := false]))
    else Ok(e)
  }

  /** The acknowledge part of IN. */
  function Acknowledge(e: Endpoint): (r: Result<Endpoint, Error>)
    requires Valid(e)
    ensures r.Ok? ==> Valid(r.value)
  {
    if e.vars.receivedAcknowledge then
      if !e.vars.acknowledgeRequested then Err(AcknowledgeReceivedWithoutAnyRequest)
      else
        var e' :- AcknowledgeHook(e);
        Ok(e'.(vars := e'.vars.(acknowledgeRequested := false)))
    else if e.vars.acknowledgeRequested then Err(PreviousTransferHasNotBeenAcknowledged)
    else Ok(e)
  }

  /** The IN half of a turn. The first run reads nothing. */
  function In(e: Endpoint, data: byte): (r: Result<Endpoint, Error>)
    requires Valid(e)
    ensures r.Ok? ==> Valid(r.value)
  {
    if e.firstRun then Ok(e)
    else
      var e1 := ReceiveSignals(e, data);
      var e2 :- if e1.vars.receivedRequest then ReadHook(e1, data) else ReadObject(e1, data);
      var e3 :- TransferHook(e2);
      Acknowledge(e3)
  }

  // ----- OUT -----

  /** `incoming_shutdown_query` of the FPGA and of the MCU. */
  predicate IncomingShutdownQuery(e: Endpoint)
    requires Valid(e)
  {
    && (e.role.Mcu? ==> e.vars.receivedComShutdown)
    && !TransfersPending(e)
    && !e.vars.acknowledgeRequested
    && !e.vars.receivedAcknowledge
    && e.vars.descendantsNotified
  }

  /** `outgoing_sighup_query` of the FPGA and of the MCU. */
  predicate OutgoingSighupQuery(e: Endpoint)
    requires Valid(e)
  {
    && (if e.role.Fpga? then e.vars.sentComShutdown && e.vars.receivedComShutdown else e.vars.receivedSighup)
    && !ReadsPending(e)
    && !WritesPending(e)
  }

  /** `send_request`, `write_bits` and `write_byte` for a control code or a request. */
  function Send(e: Endpoint, code: byte): (Endpoint, byte)
  {
    (e.(wires := e.wires.(requestOut := true)), SetSignals(code, true, e.wires.ackOut))
  }

  /** `write_object` with the send lock held: one byte, or the empty fourth one of a round. */
  function WriteObject(tx: Sender, objects: seq<seq<byte>>, wires: Wires): (r: (Sender, byte))
    requires ValidSizes(objects) && ValidSender(tx, objects) && tx.lock
    ensures ValidSender(r.0, objects)
  {
    if tx.phase < 3 then
      var (enc, out) := WriteByte(tx.enc, objects[tx.origin][tx.pos], wires.requestOut, wires.ackOut);
      (tx.(pos := tx.pos + 1, phase := tx.phase + 1, enc := enc), out)
    else
      var (enc, out) := WriteByte(tx.enc, NO_DATA, wires.requestOut, wires.ackOut);
      if tx.pos == |objects[tx.origin]| then
        (Sender(false, tx.origin, 0, 0, enc, tx.transfer[tx.origin := false]), out)
      else
        (tx.(phase := 0, enc := enc), out)
  }

  function SendData(e: Endpoint): (r: (Endpoint, byte))
    requires Valid(e) && e.tx.lock
    ensures Valid(r.0)
  {
    var (tx, out) := WriteObject(e.tx, e.objects, e.wires);
    (e.(tx := tx), out)
  }

  /** What OUT writes. */
  datatype Choice =
    | PowerOn
    | Data
    | Request(id: nat)
    | Shutdown
    | Transfer(id: nat)
    | Sighup
    | Idle

  /** The order in which `write_hook` and `event_loop` try the alternatives. */
  function Choose(e: Endpoint): (c: Choice)
    requires Valid(e)
    ensures c.Request? || c.Transfer? ==> c.id < |e.objects|
  {
    if e.firstRun then PowerOn
    else if e.tx.lock then Data
    else if !e.vars.sentComShutdown && TransfersPending(e) then Request(FirstUnsynced(e))
    else if IncomingShutdownQuery(e) && !e.vars.sentComShutdown then Shutdown
    else if WritesPending(e) then Transfer(FirstTransfer(e))
    else if OutgoingSighupQuery(e) && !e.vars.sentSighup then Sighup
    else Idle
  }

  /** The sender as `getFirstSyncObject` opens it. */
  function Opening(tx: Sender, j: nat): Sender {
    tx.(lock := true, origin := j)
  }

  /** The OUT half of a turn: `write_hook`, then `write_object`, then idle. */
  function Out(e: Endpoint): (r: Result<(Endpoint, byte), Error>)
    requires Valid(e)
    ensures r.Ok? ==> Valid(r.value.0)
  {
    var e0 := e.(waiting := NUM_IDS);
    match Choose(e)
    case PowerOn =>
      var (e1, out) := Send(e0, POWERON);
      Ok((e1.(firstRun := false), out))
    case Data =>
      Ok(SendData(e0))
    case Request(j) =>
      if e.rx.readLock[j] then Err(SyncedStatusHasNotBeenOverridenWhenReadlockWasAcquired)
      else Ok(Send(e0.(waiting := j, vars := e.vars.(acknowledgeRequested := true)), j + LOWER_STATES))
    case Shutdown =>
      var (e1, out) := Send(e0, SHUTDOWN);
      Ok((e1.(vars := e.vars.(sentComShutdown := true)), out))
    case Transfer(j) =>
      if e.rx.readLock[j] then Err(FoundATransferObjectWhichIsReadlocked)
      else if e.tx.pos != 0 then Err(PreviousObjectWriteHasNotBeenCompleted)
      else Ok(SendData(e0.(tx := Opening(e.tx, j))))
    case Sighup =>
      var (e1, out) := Send(e0, SIGHUP);
      Ok((e1.(vars := e.vars.(sentSighup := true)), out))
    case Idle =>
      var (e1, out) := Send(e0, IDLE);
      Ok((e1.(vars := e.vars.(sentIdle := e.vars.sentIdle || e.vars.sentSighup)), out))
  }
}
