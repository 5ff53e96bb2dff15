/** Two endpoints and the byte between them. `Sent(x, y, ...)` holds after x has written byte b and
    before y reads it; `Taken(x, y, ...)` holds after y has read it and before y writes. Each half
    of a turn leads from one to the other without an abort. */
module Pair {
  import opened Results
  import opened Bits
  import opened Codec
  import opened Endpoint
  import opened Link

  // ----- What holds of each side -----

  /** An object is at most one of: to be sent, being sent, being received. */
  predicate Exclusive(transfer: seq<bool>, readLock: seq<bool>, sync: seq<bool>, count: nat) {
    && |transfer| == |readLock| == |sync| == NUM_IDS
    && forall j :: 0 <= j < NUM_IDS ==>
         && !(transfer[j] && readLock[j])
         && !(transfer[j] && sync[j])
         && !(readLock[j] && sync[j])
         && (j >= count ==> !transfer[j] && !readLock[j] && !sync[j])
  }

  /** Bit 7 is down whenever an accepted object is waiting to be sent. */
  predicate RequestBitClear(e: Endpoint)
    requires Valid(e)
  {
    !e.vars.acknowledgeRequested && !None(e.tx.transfer) ==> !e.wires.requestOut
  }

  /** Objects in transfer are still what they were when the transfer was granted. */
  predicate Copied(objects: seq<seq<byte>>, transfer: seq<bool>, copy: seq<seq<byte>>) {
    && |objects| == |copy| <= |transfer|
    && forall j :: 0 <= j < |copy| && transfer[j] ==> objects[j] == copy[j]
  }

  /** The request for object `waiting` is under way. */
  predicate Requested(e: Endpoint)
    requires Valid(e)
  {
    && e.waiting < |e.objects|
    && e.sync[e.waiting] && !e.tx.transfer[e.waiting]
    && !e.tx.lock
    && e.wires.requestOut
  }

  /** Nothing has happened on this side yet but power-on and local writes. */
  predicate Blank(e: Endpoint)
    requires Valid(e)
  {
    && None(e.tx.transfer) && None(e.rx.readLock)
    && !e.tx.lock && !e.rx.lock && e.rx.dec == EMPTY
    && !e.vars.acknowledgeRequested
    && !e.vars.receivedComShutdown && !e.vars.sentComShutdown
    && !e.vars.receivedSighup && !e.vars.sentSighup
    && (e.firstRun ==> e.wires == Wires(false, false, false, false))
  }

  /** `waiting` names an object only until the answer has been read. */
  predicate Pending(e: Endpoint) {
    e.vars.acknowledgeRequested <==> e.waiting < NUM_IDS
  }

  predicate Side(e: Endpoint, copy: seq<seq<byte>>) {
    && Valid(e)
    && SameSizes(e.objects, copy)
    && Exclusive(e.tx.transfer, e.rx.readLock, e.sync, |e.objects|)
    && RequestBitClear(e)
    && (e.tx.lock ==> e.tx.transfer[e.tx.origin])
    && Copied(e.objects, e.tx.transfer, copy)
    && (e.vars.acknowledgeRequested ==> Requested(e))
    && (e.firstRun ==> Blank(e))
  }

  /** Copies of an object differ only while one side wants to send or is receiving it. */
  predicate Coherent(a: seq<seq<byte>>, syncA: seq<bool>, lockA: seq<bool>,
                     b: seq<seq<byte>>, syncB: seq<bool>, lockB: seq<bool>)
  {
    && |a| == |b| <= NUM_IDS && |syncA| == |syncB| == |lockA| == |lockB| == NUM_IDS
    && forall j :: 0 <= j < |a| ==> a[j] == b[j] || syncA[j] || syncB[j] || lockA[j] || lockB[j]
  }

  predicate MirrorsAgree(x: Endpoint, y: Endpoint) {
    Coherent(x.objects, x.sync, x.rx.readLock, y.objects, y.sync, y.rx.readLock)
  }

  // ----- What is in flight -----

  /** The ids `e` has been granted, counting the grant on its way to `e`. */
  function Grants(e: Endpoint): (s: seq<bool>)
    requires Valid(e) && (e.vars.acknowledgeRequested ==> e.waiting < NUM_IDS)
    ensures |s| == NUM_IDS
  {
    if e.vars.acknowledgeRequested then e.tx.transfer[e.waiting := true] else e.tx.transfer
  }

  /** x has sent a control byte. */
  predicate Control(x: Endpoint) {
    x.wires.requestOut && !x.vars.acknowledgeRequested
  }

  /** The shutdown handshake flags of the two sides agree up to the byte in flight. */
  predicate Handshake(x: Endpoint, y: Endpoint, b: byte) {
    && x.vars.receivedComShutdown == y.vars.sentComShutdown
    && x.vars.receivedSighup == y.vars.sentSighup
    && (if Control(x) && Low6(b) == SHUTDOWN then x.vars.sentComShutdown && !y.vars.receivedComShutdown
        else x.vars.sentComShutdown == y.vars.receivedComShutdown)
    && (if Control(x) && Low6(b) == SIGHUP then x.vars.sentSighup && !y.vars.receivedSighup
        else x.vars.sentSighup == y.vars.receivedSighup)
  }

  /** x is one data byte ahead of y. */
  predicate DataInFlight(x: Endpoint, y: Endpoint, copyX: seq<seq<byte>>, b: byte)
    requires Side(x, copyX) && Valid(y) && SameSizes(x.objects, y.objects)
  {
    var rx := Opened(y.rx, |y.objects|);
    && (y.rx.lock || (FirstReadLock(y.rx, |y.objects|) < |y.objects| && y.rx.dec == EMPTY))
    && Ahead(x.tx, rx, copyX, y.objects, b)
    && (if Final(rx, copyX) then
          && y.rx.readLock == x.tx.transfer[rx.dest := true]
          && !x.tx.transfer[rx.dest]
          && (x.objects[rx.dest] == copyX[rx.dest] || x.sync[rx.dest])
        else y.rx.readLock == x.tx.transfer && x.tx.transfer[rx.dest])
  }

  /** The byte in flight from x, by kind. */
  predicate Flight(x: Endpoint, y: Endpoint, copyX: seq<seq<byte>>, b: byte)
    requires Side(x, copyX) && Valid(y) && SameSizes(x.objects, y.objects)
  {
    && (RequestBit(b) <==> x.wires.requestOut)
    && (AcknowledgeBit(b) <==> y.vars.acknowledgeRequested)
    && (if !x.wires.requestOut then DataInFlight(x, y, copyX, b)
        else
          && Synced(x.tx, y.rx, copyX, y.objects)
          && y.rx.readLock == x.tx.transfer
          && (if x.vars.acknowledgeRequested then Low6(b) == x.waiting + LOWER_STATES
              else IsControl(Low6(b))))
  }

  predicate Both(x: Endpoint, y: Endpoint, copyX: seq<seq<byte>>, copyY: seq<seq<byte>>) {
    && Side(x, copyX) && Side(y, copyY)
    && SameSizes(x.objects, y.objects)
    && MirrorsAgree(x, y)
    && (x.firstRun ==> y.firstRun)
  }

  /** x has written b; y reads next. */
  predicate Sent(x: Endpoint, y: Endpoint, copyX: seq<seq<byte>>, copyY: seq<seq<byte>>, b: byte) {
    && Both(x, y, copyX, copyY)
    && Pending(x) && Pending(y)
    && Synced(y.tx, x.rx, copyY, x.objects)
    && x.rx.readLock == Grants(y)
    && (y.vars.acknowledgeRequested ==> y.objects[y.waiting] == copyY[y.waiting])
    && (if y.firstRun then Blank(x) && Blank(y)
        else
          && Flight(x, y, copyX, b)
          && Handshake(x, y, b)
          && (Control(x) && Low6(b) == POWERON ==> Blank(x) && Blank(y)))
  }

  /** y has read x's byte; y writes next. */
  predicate Taken(x: Endpoint, y: Endpoint, copyX: seq<seq<byte>>, copyY: seq<seq<byte>>) {
    && Both(x, y, copyX, copyY)
    && Pending(x)
    && Synced(x.tx, y.rx, copyX, y.objects)
    && Synced(y.tx, x.rx, copyY, x.objects)
    && !y.vars.acknowledgeRequested
    && x.rx.readLock == y.tx.transfer
    && y.rx.readLock == Grants(x)
    && (x.vars.acknowledgeRequested ==> x.objects[x.waiting] == copyX[x.waiting])
    && y.wires.ackOut == x.vars.acknowledgeRequested
    && x.vars.receivedComShutdown == y.vars.sentComShutdown
    && y.vars.receivedComShutdown == x.vars.sentComShutdown
    && x.vars.receivedSighup == y.vars.sentSighup
    && y.vars.receivedSighup == x.vars.sentSighup
    && (y.firstRun ==> Blank(x) && Blank(y))
  }

  // ----- IN -----

  /** The copy of an object is taken when its read lock is granted. */
  function CopyOnGrant(x: Endpoint, y: Endpoint, y': Endpoint, copyX: seq<seq<byte>>): (c: seq<seq<byte>>)
    requires Valid(x) && Valid(y) && Valid(y') && SameSizes(x.objects, copyX)
    ensures SameSizes(x.objects, c)
  {
    var j := y'.incoming;
    if j < |x.objects| && !y.rx.readLock[j] && y'.rx.readLock[j] then copyX[j := x.objects[j]] else copyX
  }

  /** y has dealt with the data, request or control code of the byte, not yet with its acknowledge
      bit: y3 is y after `transfer_hook`. */
  predicate Handled(x: Endpoint, y: Endpoint, y3: Endpoint, copyX: seq<seq<byte>>, copyY: seq<seq<byte>>) {
    && Side(x, copyX) && Side(y, copyY) && Valid(y3) && Pending(x) && Pending(y)
    && !x.firstRun && !y.firstRun && !y3.firstRun
    && SameSizes(x.objects, y3.objects) && SameSizes(x.objects, y.objects)
    && y3.tx == y.tx && y3.waiting == y.waiting && y3.role == y.role
    && y3.vars.acknowledgeRequested == y3.vars.receivedAcknowledge == y.vars.acknowledgeRequested
    && y3.wires.requestOut == (y.wires.requestOut && !y.vars.acknowledgeRequested)
    && y3.wires.ackOut == x.vars.acknowledgeRequested
    && Synced(x.tx, y3.rx, copyX, y3.objects)
    && y3.rx.readLock == Grants(x)
    && (forall j :: 0 <= j < NUM_IDS && x.tx.transfer[j] ==> y.rx.readLock[j])
    && (x.vars.acknowledgeRequested ==> x.objects[x.waiting] == copyX[x.waiting])
    && y3.sync == (if x.vars.acknowledgeRequested then y.sync[x.waiting := false] else y.sync)
    && (forall j :: 0 <= j < |y.objects| && (y.tx.transfer[j] || y.sync[j]) ==> y3.objects[j] == y.objects[j])
    && MirrorsAgree(x, y3)
    && x.vars.receivedComShutdown == y3.vars.sentComShutdown
    && y3.vars.receivedComShutdown == x.vars.sentComShutdown
    && x.vars.receivedSighup == y3.vars.sentSighup
    && y3.vars.receivedSighup == x.vars.sentSighup
  }

  /** The signal bits of the byte arrive as x set them. */
  lemma SignalsArrive(x: Endpoint, y: Endpoint, copyX: seq<seq<byte>>, copyY: seq<seq<byte>>, b: byte)
    requires Sent(x, y, copyX, copyY, b) && !y.firstRun
    ensures var y1 := ReceiveSignals(y, b);
            && y1.vars.receivedRequest == x.wires.requestOut
            && y1.vars.receivedAcknowledge == y.vars.acknowledgeRequested
            && y1.wires == Wires(y.wires.requestOut && !y.vars.acknowledgeRequested, false,
                                 x.wires.requestOut, y.vars.acknowledgeRequested)
            && y1.incoming == NUM_IDS
            && Valid(y1)
  {
    hide RequestBit, AcknowledgeBit, Synced, DataInFlight, Exclusive, Copied, Coherent, ValidSizes,
         ValidSender, ValidReceiver;
  }

  /** What the data byte in flight does to the reader. */
  lemma DataArrives(x: Endpoint, y: Endpoint, copyX: seq<seq<byte>>, copyY: seq<seq<byte>>, b: byte)
    requires Sent(x, y, copyX, copyY, b) && !y.firstRun
    requires !x.wires.requestOut
    ensures var rx := Opened(y.rx, |y.objects|);
            && OpenRead(y.rx, |y.objects|) == Ok(rx) && rx.lock && ValidReceiver(rx, y.objects)
            && y.rx.readLock[rx.dest] && !y.tx.transfer[rx.dest] && !y.sync[rx.dest]
            && (forall j :: 0 <= j < NUM_IDS ==> y.rx.readLock[j] == (x.tx.transfer[j] || j == rx.dest))
            && var (rx', objects') := TakeByte(rx, y.objects, b);
               && Synced(x.tx, rx', copyX, objects')
               && SameSizes(x.objects, objects')
               && (forall j :: 0 <= j < |y.objects| && j != rx.dest ==> objects'[j] == y.objects[j])
               && rx'.readLock == x.tx.transfer
               && (rx'.readLock[rx.dest] || objects'[rx.dest] == x.objects[rx.dest] || x.sync[rx.dest])
  {
    hide TakeByte, Sextet, Received, Assembled, Holds, RequestBit, AcknowledgeBit, Low6, Copied, Coherent;
    var rx := Opened(y.rx, |y.objects|);
    assert ValidReceiver(rx, y.objects);
    assert ValidSender(x.tx, y.objects);
    ReadStep(x.tx, rx, copyX, y.objects, b);
    assert TakeByte(rx, y.objects, b).0.readLock == x.tx.transfer;
  }

  lemma ReadData(x: Endpoint, y: Endpoint, copyX: seq<seq<byte>>, copyY: seq<seq<byte>>, b: byte)
    requires Sent(x, y, copyX, copyY, b) && !y.firstRun
    requires !x.wires.requestOut
    ensures var r := ReadObject(ReceiveSignals(y, b), b);
            && r.Ok?
            && r.value.incoming == NUM_IDS
            && Handled(x, y, r.value, copyX, copyY)
  {
    hide TakeByte, Received, OpenRead, Opened, RequestBit, AcknowledgeBit, Low6, Exclusive, Copied, Flight,
         Synced, None, RequestBitClear;
    SignalsArrive(x, y, copyX, copyY, b);
    DataArrives(x, y, copyX, copyY, b);
    assert Handshake(x, y, b) && !Control(x);
  }

  /** The flags after a control code. */
  function ControlVars(e: Endpoint, code: byte): ComVars {
    if code == POWERON then FRESH_VARS
    else if code == SHUTDOWN then
      e.vars.(receivedComShutdown := true, descendantsNotified := e.vars.descendantsNotified || e.role.Mcu?)
    else if code == SIGHUP then e.vars.(receivedSighup := true)
    else e.vars
  }

  lemma ControlIs(e: Endpoint, b: byte)
    requires Valid(e) && !e.vars.receivedSighup
    requires IsControl(Low6(b))
    requires Low6(b) == SHUTDOWN ==> !e.vars.receivedComShutdown
    requires Low6(b) == POWERON ==>
               && !e.vars.acknowledgeRequested && !e.vars.receivedAcknowledge
               && !e.rx.lock && e.rx.dec == EMPTY
    ensures ReadHook(e, b) == Ok(e.(vars := ControlVars(e, Low6(b))))
  {
    hide Valid, Low6;
  }

  /** What a control code changes: only flags. */
  lemma ControlHook(e: Endpoint, b: byte)
    requires Valid(e) && !e.vars.receivedSighup
    requires IsControl(Low6(b))
    requires Low6(b) == SHUTDOWN ==> !e.vars.receivedComShutdown
    requires Low6(b) == POWERON ==>
               && !e.vars.acknowledgeRequested && !e.vars.receivedAcknowledge
               && !e.vars.sentComShutdown && !e.vars.receivedComShutdown && !e.vars.sentSighup
               && !e.rx.lock && e.rx.dec == EMPTY
    ensures var r := ReadHook(e, b);
            && r.Ok? && r.value == e.(vars := r.value.vars)
            && r.value.vars.acknowledgeRequested == e.vars.acknowledgeRequested
            && r.value.vars.receivedAcknowledge == e.vars.receivedAcknowledge
            && r.value.vars.sentComShutdown == e.vars.sentComShutdown
            && r.value.vars.sentSighup == e.vars.sentSighup
            && r.value.vars.receivedComShutdown == (e.vars.receivedComShutdown || Low6(b) == SHUTDOWN)
            && r.value.vars.receivedSighup == (Low6(b) == SIGHUP)
  {
    hide Valid, Low6, ReadHook;
    ControlIs(e, b);
  }

  lemma ReadControl(x: Endpoint, y: Endpoint, copyX: seq<seq<byte>>, copyY: seq<seq<byte>>, b: byte)
    requires Sent(x, y, copyX, copyY, b) && !y.firstRun && !y.vars.receivedSighup
    requires Control(x)
    ensures var r := ReadHook(ReceiveSignals(y, b), b);
            && r.Ok?
            && r.value.incoming == NUM_IDS
            && Handled(x, y, r.value, copyX, copyY)
  {
    hide RequestBit, AcknowledgeBit, Low6, Synced, DataInFlight, Exclusive, Copied, Coherent;
    hide ValidSizes, ValidSender, ValidReceiver, None, RequestBitClear, ReadHook;
    SignalsArrive(x, y, copyX, copyY, b);
    ControlHook(ReceiveSignals(y, b), b);
  }

  /** A transfer request decodes to the id its sender encoded. */
  lemma RequestHook(e: Endpoint, b: byte, w: nat)
    requires Valid(e) && !e.vars.receivedSighup
    requires w < NUM_IDS && Low6(b) == w + LOWER_STATES
    ensures ReadHook(e, b) == Ok(e.(incoming := w))
  {
    hide Valid, Low6;
  }

  /** The requested object is free on both sides. */
  lemma RequestIsFree(x: Endpoint, y: Endpoint, copyX: seq<seq<byte>>, copyY: seq<seq<byte>>, b: byte)
    requires Sent(x, y, copyX, copyY, b) && !y.firstRun
    requires x.vars.acknowledgeRequested
    ensures var w := x.waiting;
            && w < |x.objects| && w != y.waiting
            && !x.rx.readLock[w] && !y.rx.readLock[w] && !y.tx.transfer[w]
  {
    hide Synced, Copied, Coherent, ValidSizes, ValidSender, RequestBit, AcknowledgeBit, Low6;
    var w := x.waiting;
    assert !x.rx.readLock[w];
  }

  /** y, having read x's request, with the request granted. */
  function Granted(y1: Endpoint, w: nat): (y3: Endpoint)
    requires Valid(y1) && w < |y1.objects|
    ensures Valid(y3)
  {
    y1.(incoming := w, sync := y1.sync[w := false],
        rx := y1.rx.(readLock := y1.rx.readLock[w := true]), wires := y1.wires.(ackOut := true))
  }

  lemma GrantHandled(x: Endpoint, y: Endpoint, copyX: seq<seq<byte>>, copyY: seq<seq<byte>>, b: byte)
    requires Sent(x, y, copyX, copyY, b) && !y.firstRun
    requires x.vars.acknowledgeRequested
    ensures x.waiting < |x.objects| && Valid(ReceiveSignals(y, b))
    ensures Handled(x, y, Granted(ReceiveSignals(y, b), x.waiting), copyX[x.waiting := x.objects[x.waiting]], copyY)
  {
    hide RequestBit, AcknowledgeBit, Low6, Received, Assembled, Holds, DataInFlight, RequestBitClear;
    SignalsArrive(x, y, copyX, copyY, b);
    RequestIsFree(x, y, copyX, copyY, b);
  }

  lemma ReadRequest(x: Endpoint, y: Endpoint, copyX: seq<seq<byte>>, copyY: seq<seq<byte>>, b: byte)
    requires Sent(x, y, copyX, copyY, b) && !y.firstRun && !y.vars.receivedSighup
    requires x.vars.acknowledgeRequested
    ensures var w := x.waiting;
            var r := ReadHook(ReceiveSignals(y, b), b);
            && w < |x.objects|
            && r.Ok? && r.value.incoming == w
            && !y.rx.readLock[w]
            && TransferHook(r.value).Ok?
            && TransferHook(r.value).value.rx.readLock[w]
            && TransferHook(r.value).value.incoming == w
            && Handled(x, y, TransferHook(r.value).value, copyX[w := x.objects[w]], copyY)
  {
    hide RequestBit, AcknowledgeBit, Low6, Synced, DataInFlight, Exclusive, Copied, Coherent, None;
    hide ReadHook, Handled, ValidSizes, ValidSender, RequestBitClear, Handshake, Blank;
    SignalsArrive(x, y, copyX, copyY, b);
    RequestIsFree(x, y, copyX, copyY, b);
    GrantHandled(x, y, copyX, copyY, b);
    RequestHook(ReceiveSignals(y, b), b, x.waiting);
    assert TransferHook(ReceiveSignals(y, b).(incoming := x.waiting)) == Ok(Granted(ReceiveSignals(y, b), x.waiting));
  }

  lemma GrantsExclude(x: Endpoint, copyX: seq<seq<byte>>, y: Endpoint, y3: Endpoint, copyY: seq<seq<byte>>)
    requires Handled(x, y, y3, copyX, copyY) && x.rx.readLock == Grants(y)
    ensures y.vars.acknowledgeRequested ==> !y3.rx.readLock[y.waiting]
    ensures forall j :: 0 <= j < NUM_IDS ==>
              && !(y3.tx.transfer[j] && y3.rx.readLock[j])
              && !(y3.tx.transfer[j] && y3.sync[j])
              && !(y3.rx.readLock[j] && y3.sync[j])
              && (j >= |y.objects| ==> !y3.tx.transfer[j] && !y3.rx.readLock[j] && !y3.sync[j])
  {
    hide Synced, Coherent, Copied, ValidSizes, ValidSender, ValidReceiver, None;
    forall j | 0 <= j < NUM_IDS
      ensures y3.rx.readLock[j] ==> !y.tx.transfer[j] && !y3.sync[j]
    {
      if y3.rx.readLock[j] {
        assert Grants(x)[j];
        if x.tx.transfer[j] {
          assert !x.rx.readLock[j] && !x.sync[j];
        }
      }
    }
  }

  lemma AcknowledgeStep(x: Endpoint, copyX: seq<seq<byte>>, y: Endpoint, y3: Endpoint, copyY: seq<seq<byte>>)
    requires Handled(x, y, y3, copyX, copyY) && x.rx.readLock == Grants(y)
    requires Synced(y.tx, x.rx, copyY, x.objects)
    requires y.vars.acknowledgeRequested ==> y.objects[y.waiting] == copyY[y.waiting]
    ensures Acknowledge(y3).Ok? && Taken(x, Acknowledge(y3).value, copyX, copyY)
    ensures Acknowledge(y3).value.rx == y3.rx && Acknowledge(y3).value.incoming == y3.incoming
  {
    hide Received, Holds, ValidSizes, ValidReceiver;
    GrantsExclude(x, copyX, y, y3, copyY);
    assert Acknowledge(y3).Ok?;
    var y' := Acknowledge(y3).value;
    assert Copied(y'.objects, y'.tx.transfer, copyY);
    assert MirrorsAgree(x, y');
  }

  /** IN when the byte is not a request: nothing is granted. */
  lemma InUngranted(x: Endpoint, y: Endpoint, y2: Endpoint, copyX: seq<seq<byte>>, copyY: seq<seq<byte>>, b: byte)
    requires Sent(x, y, copyX, copyY, b) && !y.firstRun
    requires Handled(x, y, y2, copyX, copyY) && y2.incoming == NUM_IDS
    ensures TransferHook(y2) == Ok(y2)
    ensures Acknowledge(y2).Ok?
    ensures var y' := Acknowledge(y2).value;
            Taken(x, y', CopyOnGrant(x, y, y', copyX), copyY)
  {
    hide Acknowledge, Handled, Flight, Handshake, Blank, Exclusive, Coherent, Copied, Synced;
    AcknowledgeStep(x, copyX, y, y2, copyY);
  }

  lemma InGranted(x: Endpoint, y: Endpoint, copyX: seq<seq<byte>>, copyY: seq<seq<byte>>, b: byte)
    requires Sent(x, y, copyX, copyY, b) && !y.firstRun && !y.vars.receivedSighup
    requires x.vars.acknowledgeRequested
    ensures var r := ReadHook(ReceiveSignals(y, b), b);
            && r.Ok? && TransferHook(r.value).Ok? && Acknowledge(TransferHook(r.value).value).Ok?
            && var y' := Acknowledge(TransferHook(r.value).value).value;
               Taken(x, y', CopyOnGrant(x, y, y', copyX), copyY)
  {
    hide ReadHook, ReceiveSignals, TransferHook, Acknowledge, Handled, Flight, Handshake, Blank;
    hide Exclusive, Coherent, Copied, Synced;
    SignalsArrive(x, y, copyX, copyY, b);
    ReadRequest(x, y, copyX, copyY, b);
    var w := x.waiting;
    var y3 := TransferHook(ReadHook(ReceiveSignals(y, b), b).value).value;
    AcknowledgeStep(x, copyX[w := x.objects[w]], y, y3, copyY);
  }

  /** The IN half of a turn never aborts, and grants every request at once. */
  lemma InKeeps(x: Endpoint, y: Endpoint, copyX: seq<seq<byte>>, copyY: seq<seq<byte>>, b: byte)
    requires Sent(x, y, copyX, copyY, b) && !y.vars.receivedSighup
    ensures In(y, b).Ok?
    ensures var y' := In(y, b).value;
            Taken(x, y', CopyOnGrant(x, y, y', copyX), copyY)
  {
    hide Acknowledge, ReadHook, ReadObject, TransferHook, ReceiveSignals, Handled;
    hide Exclusive, Coherent, Copied, Taken, Handshake, Flight;
    if y.firstRun {
      FirstInKeeps(x, y, copyX, copyY, b);
    } else {
      SignalsArrive(x, y, copyX, copyY, b);
      if !x.wires.requestOut {
        ReadData(x, y, copyX, copyY, b);
        InUngranted(x, y, ReadObject(ReceiveSignals(y, b), b).value, copyX, copyY, b);
      } else if x.vars.acknowledgeRequested {
        InGranted(x, y, copyX, copyY, b);
      } else {
        ReadControl(x, y, copyX, copyY, b);
        InUngranted(x, y, ReadHook(ReceiveSignals(y, b), b).value, copyX, copyY, b);
      }
    }
  }

  lemma FirstInKeeps(x: Endpoint, y: Endpoint, copyX: seq<seq<byte>>, copyY: seq<seq<byte>>, b: byte)
    requires Sent(x, y, copyX, copyY, b) && y.firstRun
    ensures In(y, b) == Ok(y)
    ensures Taken(x, y, CopyOnGrant(x, y, y, copyX), copyY)
  {
    hide Exclusive, Coherent, Copied, Handshake, Flight;
    assert y.rx.readLock == x.tx.transfer;
    assert CopyOnGrant(x, y, y, copyX) == copyX;
  }

  /** Every IN after the first goes through a `Handled` state. */
  lemma InVia(x: Endpoint, y: Endpoint, copyX: seq<seq<byte>>, copyY: seq<seq<byte>>, b: byte)
    returns (y3: Endpoint, c: seq<seq<byte>>)
    requires Sent(x, y, copyX, copyY, b) && !y.firstRun && !y.vars.receivedSighup
    ensures Handled(x, y, y3, c, copyY)
    ensures In(y, b) == Acknowledge(y3)
  {
    hide Acknowledge, ReadHook, ReadObject, TransferHook, ReceiveSignals, Handled;
    hide Exclusive, Coherent, Copied, Taken, Handshake, Flight;
    SignalsArrive(x, y, copyX, copyY, b);
    c := copyX;
    if !x.wires.requestOut {
      ReadData(x, y, copyX, copyY, b);
      y3 := ReadObject(ReceiveSignals(y, b), b).value;
      InUngranted(x, y, y3, copyX, copyY, b);
    } else if x.vars.acknowledgeRequested {
      ReadRequest(x, y, copyX, copyY, b);
      y3 := TransferHook(ReadHook(ReceiveSignals(y, b), b).value).value;
      c := copyX[x.waiting := x.objects[x.waiting]];
    } else {
      ReadControl(x, y, copyX, copyY, b);
      y3 := ReadHook(ReceiveSignals(y, b), b).value;
      InUngranted(x, y, y3, copyX, copyY, b);
    }
  }

  /** e's request for object j is under way. */
  predicate RequestedBy(e: Endpoint, j: nat) {
    e.vars.acknowledgeRequested && j == e.waiting
  }

  /** What IN does to this side's own requests: a request of ours is accepted with the byte that
      answers it, and a local request loses to the peer's request for the same object. */
  lemma InEffect(x: Endpoint, y: Endpoint, copyX: seq<seq<byte>>, copyY: seq<seq<byte>>, b: byte)
    requires Sent(x, y, copyX, copyY, b) && !y.firstRun && !y.vars.receivedSighup
    ensures In(y, b).Ok?
    ensures var y' := In(y, b).value;
            && y'.tx == y.tx.(transfer := Grants(y))
            && y'.vars.receivedAcknowledge == y.vars.acknowledgeRequested
            && !y'.vars.acknowledgeRequested
            && y'.wires.requestOut == (y.wires.requestOut && !y.vars.acknowledgeRequested)
            && |y'.sync| == NUM_IDS
            && (forall j :: 0 <= j < NUM_IDS ==>
                  (y'.sync[j] <==> y.sync[j] && !RequestedBy(x, j) && !RequestedBy(y, j)))
  {
    hide Synced, Exclusive, Coherent, Copied, Flight, Handshake, ValidSizes, ValidSender, ValidReceiver, None,
         Blank, RequestBitClear;
    hide In;
    InKeeps(x, y, copyX, copyY, b);
    var y3, c := InVia(x, y, copyX, copyY, b);
  }

  // ----- OUT -----

  /** y has written a control code or a request: its data channel is as it was. */
  lemma OutSignal(x: Endpoint, y: Endpoint, y': Endpoint, copyX: seq<seq<byte>>, copyY: seq<seq<byte>>,
                  code: byte, b: byte)
    requires Taken(x, y, copyX, copyY)
    requires Valid(y') && !y'.firstRun && y'.wires == y.wires.(requestOut := true)
    requires y'.tx == y.tx && y'.rx == y.rx && y'.sync == y.sync && y'.objects == y.objects
    requires code < 64 && b == SetSignals(code, true, y.wires.ackOut)
    requires Pending(y')
    requires if y'.vars.acknowledgeRequested then
               && y'.waiting < |y.objects| && y.sync[y'.waiting] && !y.tx.transfer[y'.waiting]
               && !y.tx.lock && code == y'.waiting + LOWER_STATES
             else IsControl(code) && None(y.tx.transfer)
    requires y.firstRun <==> code == POWERON && !y'.vars.acknowledgeRequested
    requires y'.vars.receivedComShutdown == y.vars.receivedComShutdown
    requires y'.vars.receivedSighup == y.vars.receivedSighup
    requires if code == SHUTDOWN && !y'.vars.acknowledgeRequested then
               !y.vars.sentComShutdown && y'.vars.sentComShutdown
             else y'.vars.sentComShutdown == y.vars.sentComShutdown
    requires if code == SIGHUP && !y'.vars.acknowledgeRequested then !y.vars.sentSighup && y'.vars.sentSighup
             else y'.vars.sentSighup == y.vars.sentSighup
    ensures Sent(y', x, copyY, copyX, b)
  {
    hide SetSignals, RequestBit, AcknowledgeBit, Low6, Synced, Exclusive, Copied, ValidSizes, ValidSender,
         ValidReceiver;
    SignalsKeepData(code, true, y.wires.ackOut);
    assert x.rx.readLock == y'.tx.transfer;
    assert MirrorsAgree(y', x);
  }

  /** y, holding the send lock, has written a data byte. */
  lemma OutData(x: Endpoint, y: Endpoint, e: Endpoint, copyX: seq<seq<byte>>, copyY: seq<seq<byte>>, open: Receiver)
    requires Taken(x, y, copyX, copyY) && !y.firstRun && !x.firstRun
    requires !y.wires.requestOut
    requires Valid(e) && e.tx.lock && e.tx.transfer == y.tx.transfer && e.tx.transfer[e.tx.origin]
    requires e == y.(waiting := NUM_IDS, tx := e.tx)
    requires open == Opened(x.rx, |x.objects|) && ValidReceiver(open, x.objects)
    requires x.rx.lock || (FirstReadLock(x.rx, |x.objects|) < |x.objects| && x.rx.dec == EMPTY)
    requires Synced(e.tx, open, copyY, x.objects)
    ensures var (y', b) := SendData(e);
            Sent(y', x, copyY, copyX, b)
  {
    hide SetSignals, RequestBit, AcknowledgeBit, Low6, WriteObject, ValidSizes, ValidReceiver, Assembled, Holds, Sextet;
    var (y', b) := SendData(e);
    assert open.readLock == x.rx.readLock == y.tx.transfer;
    assert e.objects[e.tx.origin] == copyY[e.tx.origin];
    SendStep(e.tx, open, copyY, e.objects, x.objects, e.wires);
    SignalsKeepData(Low6(b), e.wires.requestOut, e.wires.ackOut);
    if Final(open, copyY) {
      assert x.rx.readLock == y'.tx.transfer[open.dest := true];
    }
    assert MirrorsAgree(y', x);
  }

  lemma OutTransfer(x: Endpoint, y: Endpoint, copyX: seq<seq<byte>>, copyY: seq<seq<byte>>)
    requires Taken(x, y, copyX, copyY)
    requires Choose(y).Data? || Choose(y).Transfer?
    ensures Out(y).Ok?
    ensures Sent(Out(y).value.0, x, copyY, copyX, Out(y).value.1)
  {
    hide SendData, WriteObject, Sent, Received, Holds, Coherent, ValidReceiver, TransfersPending, IncomingShutdownQuery;
    var open := Opened(x.rx, |x.objects|);
    assert !y.wires.requestOut;
    if y.tx.lock {
      OutData(x, y, y.(waiting := NUM_IDS), copyX, copyY, open);
    } else {
      var j := FirstTransfer(y);
      OpenTogether(y.tx, x.rx, copyY, y.objects, x.objects);
      assert y.tx.transfer[j];
      OutData(x, y, y.(waiting := NUM_IDS, tx := Opening(y.tx, j)), copyX, copyY, open);
    }
  }

  lemma OutRequest(x: Endpoint, y: Endpoint, copyX: seq<seq<byte>>, copyY: seq<seq<byte>>)
    requires Taken(x, y, copyX, copyY)
    requires Choose(y).Request?
    ensures Out(y).Ok?
    ensures Sent(Out(y).value.0, x, copyY, copyX, Out(y).value.1)
  {
    hide SetSignals, Sent, Synced, Copied, Coherent, ValidSender, Blank, WritesPending, IncomingShutdownQuery;
    var j := FirstUnsynced(y);
    assert y.sync[j] && !y.tx.transfer[j] && !y.rx.readLock[j];
    var (y', b) := Send(y.(waiting := j, vars := y.vars.(acknowledgeRequested := true)), j + LOWER_STATES);
    OutSignal(x, y, y', copyX, copyY, j + LOWER_STATES, b);
  }

  lemma OutControl(x: Endpoint, y: Endpoint, copyX: seq<seq<byte>>, copyY: seq<seq<byte>>)
    requires Taken(x, y, copyX, copyY)
    requires Choose(y).PowerOn? || Choose(y).Shutdown? || Choose(y).Sighup? || Choose(y).Idle?
    requires None(y.tx.transfer)
    ensures Out(y).Ok?
    ensures Sent(Out(y).value.0, x, copyY, copyX, Out(y).value.1)
  {
    hide SetSignals, Sent, Synced, Copied, Coherent, Exclusive, None, ValidSizes, ValidSender, ValidReceiver, Blank;
    hide TransfersPending, WritesPending, ReadsPending, IncomingShutdownQuery, OutgoingSighupQuery;
    var e0, v := y.(waiting := NUM_IDS), y.vars;
    match Choose(y)
    case PowerOn =>
      OutSignal(x, y, Send(e0, POWERON).0.(firstRun := false), copyX, copyY, POWERON, Send(e0, POWERON).1);
    case Shutdown =>
      OutSignal(x, y, Send(e0, SHUTDOWN).0.(vars := v.(sentComShutdown := true)), copyX, copyY, SHUTDOWN,
                Send(e0, SHUTDOWN).1);
    case Sighup =>
      OutSignal(x, y, Send(e0, SIGHUP).0.(vars := v.(sentSighup := true)), copyX, copyY, SIGHUP, Send(e0, SIGHUP).1);
    case Idle =>
      OutSignal(x, y, Send(e0, IDLE).0.(vars := v.(sentIdle := v.sentIdle || v.sentSighup)), copyX, copyY, IDLE,
                Send(e0, IDLE).1);
  }

  /** The OUT half of a turn never aborts and keeps the two sides in step, if com_shutdown is sent
      only when no accepted object is waiting to be sent. */
  lemma OutKeeps(x: Endpoint, y: Endpoint, copyX: seq<seq<byte>>, copyY: seq<seq<byte>>)
    requires Taken(x, y, copyX, copyY)
    requires Choose(y).Shutdown? ==> None(y.tx.transfer)
    ensures Out(y).Ok?
    ensures Sent(Out(y).value.0, x, copyY, copyX, Out(y).value.1)
  {
    hide Out, Sent, Synced, Copied, Coherent;
    match Choose(y)
    case Data => OutTransfer(x, y, copyX, copyY);
    case Transfer(_) => OutTransfer(x, y, copyX, copyY);
    case Request(_) => OutRequest(x, y, copyX, copyY);
    case _ => OutControl(x, y, copyX, copyY);
  }

  // ----- Local writes -----

  /** The resolver accepts a new value for object j: the object and its sync request are set
      together, and only while no earlier write of j is pending and j is not being received. */
  predicate Writable(e: Endpoint, j: nat, value: seq<byte>)
    requires Valid(e)
  {
    j < |e.objects| && |value| == |e.objects[j]| && !e.sync[j] && !e.tx.transfer[j] && !e.rx.readLock[j]
  }

  function Written(e: Endpoint, j: nat, value: seq<byte>): (e': Endpoint)
    requires Valid(e) && Writable(e, j, value)
    ensures Valid(e')
  {
    e.(objects := e.objects[j := value], sync := e.sync[j := true])
  }

  lemma WriteKeepsSide(e: Endpoint, copy: seq<seq<byte>>, j: nat, value: seq<byte>)
    requires Side(e, copy) && Writable(e, j, value)
    ensures Side(Written(e, j, value), copy)
    ensures Blank(e) ==> Blank(Written(e, j, value))
  {
  }

  /** A local write does not touch an object that is being received. */
  lemma WriteKeepsLink(tx: Sender, rx: Receiver, copy: seq<seq<byte>>, objects: seq<seq<byte>>, j: nat,
                       value: seq<byte>)
    requires j < |objects| && |value| == |objects[j]| && (rx.lock ==> rx.dest != j)
    requires Synced(tx, rx, copy, objects)
    ensures Synced(tx, rx, copy, objects[j := value])
  {
    hide Assembled, Holds;
  }

  lemma OpenIsLocked(x: Endpoint, y: Endpoint, copyX: seq<seq<byte>>)
    requires Side(x, copyX) && Valid(y)
    requires Synced(x.tx, y.rx, copyX, y.objects) && y.rx.lock
    requires y.rx.readLock == x.tx.transfer || y.rx.readLock == Grants(x)
    ensures y.rx.readLock[y.rx.dest]
  {
  }

  lemma SenderWriteKeepsFlight(x: Endpoint, y: Endpoint, copyX: seq<seq<byte>>, b: byte, j: nat, value: seq<byte>)
    requires Side(x, copyX) && Valid(y) && SameSizes(x.objects, y.objects)
    requires Writable(x, j, value) && Flight(x, y, copyX, b)
    ensures Side(Written(x, j, value), copyX)
    ensures Flight(Written(x, j, value), y, copyX, b)
  {
    hide Synced, Ahead, RequestBit, AcknowledgeBit, Low6;
    WriteKeepsSide(x, copyX, j, value);
  }

  lemma ReaderWriteKeepsFlight(x: Endpoint, y: Endpoint, copyX: seq<seq<byte>>, b: byte, j: nat, value: seq<byte>)
    requires Side(x, copyX) && Valid(y) && SameSizes(x.objects, y.objects)
    requires Writable(y, j, value) && Flight(x, y, copyX, b)
    ensures Flight(x, Written(y, j, value), copyX, b)
  {
    hide Assembled, Holds, Sextet, RequestBit, AcknowledgeBit, Low6;
    hide Exclusive, Copied;
    if x.wires.requestOut {
      if y.rx.lock {
        OpenIsLocked(x, y, copyX);
      }
      WriteKeepsLink(x.tx, y.rx, copyX, y.objects, j, value);
    } else {
      assert y.rx.readLock[Opened(y.rx, |y.objects|).dest];
    }
  }

  lemma WriteKeepsMirrors(x: Endpoint, y: Endpoint, j: nat, value: seq<byte>)
    requires Valid(x) && Valid(y) && MirrorsAgree(x, y)
    ensures Writable(x, j, value) ==> MirrorsAgree(Written(x, j, value), y)
    ensures Writable(y, j, value) ==> MirrorsAgree(x, Written(y, j, value))
  {
  }

  lemma SenderWriteKeepsSent(x: Endpoint, y: Endpoint, copyX: seq<seq<byte>>, copyY: seq<seq<byte>>, b: byte,
                             j: nat, value: seq<byte>)
    requires Sent(x, y, copyX, copyY, b) && Writable(x, j, value)
    ensures Sent(Written(x, j, value), y, copyX, copyY, b)
  {
    hide Synced, Flight, Coherent, Blank, Exclusive, Copied, RequestBitClear;
    WriteKeepsMirrors(x, y, j, value);
    WriteKeepsSide(x, copyX, j, value);
    if x.rx.lock {
      OpenIsLocked(y, x, copyY);
    }
    WriteKeepsLink(y.tx, x.rx, copyY, x.objects, j, value);
    if !y.firstRun {
      SenderWriteKeepsFlight(x, y, copyX, b, j, value);
    }
  }

  lemma ReaderWriteKeepsSent(x: Endpoint, y: Endpoint, copyX: seq<seq<byte>>, copyY: seq<seq<byte>>, b: byte,
                             j: nat, value: seq<byte>)
    requires Sent(x, y, copyX, copyY, b) && Writable(y, j, value)
    ensures Sent(x, Written(y, j, value), copyX, copyY, b)
  {
    hide Synced, Flight, Coherent, Blank, Exclusive, Copied;
    WriteKeepsMirrors(x, y, j, value);
    WriteKeepsSide(y, copyY, j, value);
    if !y.firstRun {
      ReaderWriteKeepsFlight(x, y, copyX, b, j, value);
    }
  }

  lemma SenderWriteKeepsTaken(x: Endpoint, y: Endpoint, copyX: seq<seq<byte>>, copyY: seq<seq<byte>>, j: nat,
                              value: seq<byte>)
    requires Taken(x, y, copyX, copyY) && Writable(x, j, value)
    ensures Taken(Written(x, j, value), y, copyX, copyY)
  {
    hide Synced, Coherent, Blank, Exclusive, Copied;
    WriteKeepsMirrors(x, y, j, value);
    WriteKeepsSide(x, copyX, j, value);
    if x.rx.lock {
      OpenIsLocked(y, x, copyY);
    }
    WriteKeepsLink(y.tx, x.rx, copyY, x.objects, j, value);
  }

  lemma ReaderWriteKeepsTaken(x: Endpoint, y: Endpoint, copyX: seq<seq<byte>>, copyY: seq<seq<byte>>, j: nat,
                              value: seq<byte>)
    requires Taken(x, y, copyX, copyY) && Writable(y, j, value)
    ensures Taken(x, Written(y, j, value), copyX, copyY)
  {
    hide Synced, Coherent, Blank, Exclusive, Copied;
    WriteKeepsMirrors(x, y, j, value);
    WriteKeepsSide(y, copyY, j, value);
    if y.rx.lock {
      OpenIsLocked(x, y, copyX);
    }
    WriteKeepsLink(x.tx, y.rx, copyX, y.objects, j, value);
  }

  // ----- The notifier -----

  lemma NotifyKeeps(x: Endpoint, y: Endpoint, copyX: seq<seq<byte>>, copyY: seq<seq<byte>>, b: byte)
    ensures Sent(x, y, copyX, copyY, b) ==>
              Sent(StopNotifier(x), y, copyX, copyY, b) && Sent(x, StopNotifier(y), copyX, copyY, b)
    ensures Taken(x, y, copyX, copyY) ==>
              Taken(StopNotifier(x), y, copyX, copyY) && Taken(x, StopNotifier(y), copyX, copyY)
  {
    hide Synced, Coherent, Exclusive, Copied, None, Ahead, ValidSizes, ValidSender, ValidReceiver, RequestBit,
         AcknowledgeBit, Low6;
  }
}
