/** One side fed with any bytes whatsoever: exactly which it refuses, and with which abort, by what it has
    read since the last power-on. Nothing is assumed of the peer. */
module AnyPeer {
  import opened Results
  import opened Bits
  import opened Codec
  import opened Endpoint
  import opened Pair
  import opened Mirror

  datatype Feed = Take(b: byte) | Give | Store(id: nat, value: seq<byte>) | Tell

  function Fed(e: Endpoint, f: Feed): (r: Result<Endpoint, Error>)
    requires Valid(e)
    ensures r.Ok? ==> Valid(r.value)
  {
    match f
    case Take(b) => In(e, b)
    case Give =>
      var (e', _) :- Out(e);
      Ok(e')
    case Store(id, value) => Ok(if Writable(e, id, value) then Written(e, id, value) else e)
    case Tell => Ok(StopNotifier(e))
  }

  ghost predicate Run(role: Role, objects: seq<seq<byte>>, es: seq<Endpoint>, fs: seq<Feed>) {
    && |es| == |fs| + 1
    && es[0] == Start(role, objects)
    && forall i :: 0 <= i < |fs| ==> Valid(es[i]) && Fed(es[i], fs[i]) == Ok(es[i + 1])
  }

  /** A control byte or a request with this code is read. */
  predicate Reads(e: Endpoint, f: Feed, code: byte) {
    f.Take? && !e.firstRun && RequestBit(f.b) && Low6(f.b) == code
  }

  ghost predicate HeardAt(es: seq<Endpoint>, fs: seq<Feed>, code: byte, i: nat, k: nat)
    requires k <= |fs| < |es|
  {
    i < k && Reads(es[i], fs[i], code) && forall j :: i < j < k ==> !Reads(es[j], fs[j], POWERON)
  }

  /** The code has been read since the last power-on. */
  ghost predicate Heard(es: seq<Endpoint>, fs: seq<Feed>, code: byte, k: nat)
    requires k <= |fs| < |es|
  {
    exists i :: HeardAt(es, fs, code, i, k)
  }

  lemma HeardNext(es: seq<Endpoint>, fs: seq<Feed>, code: byte, k: nat)
    requires k < |fs| < |es|
    ensures Heard(es, fs, code, k + 1) <==>
              Reads(es[k], fs[k], code) || (Heard(es, fs, code, k) && !Reads(es[k], fs[k], POWERON))
  {
    hide Reads;
    if Reads(es[k], fs[k], code) {
      assert HeardAt(es, fs, code, k, k + 1);
    }
    if Heard(es, fs, code, k) && !Reads(es[k], fs[k], POWERON) {
      var i: nat :| HeardAt(es, fs, code, i, k);
      assert HeardAt(es, fs, code, i, k + 1);
    }
    if Heard(es, fs, code, k + 1) && !Reads(es[k], fs[k], code) {
      var i: nat :| HeardAt(es, fs, code, i, k + 1);
      assert i < k;
      assert !Reads(es[k], fs[k], POWERON);
      assert HeardAt(es, fs, code, i, k);
    }
  }

  lemma Remembers(e: Endpoint, f: Feed)
    requires Valid(e) && Fed(e, f).Ok?
    ensures var e' := Fed(e, f).value;
            && (e'.vars.receivedSighup <==>
                  Reads(e, f, SIGHUP) || (e.vars.receivedSighup && !Reads(e, f, POWERON)))
            && (e'.vars.receivedComShutdown <==>
                  Reads(e, f, SHUTDOWN) || (e.vars.receivedComShutdown && !Reads(e, f, POWERON)))
  {
    hide Valid, In, Out;
    match f
    case Take(b) => TakeRemembers(e, b);
    case Give => OutFrame(e);
    case _ =>
  }

  lemma TakeRemembers(e: Endpoint, b: byte)
    requires Valid(e) && In(e, b).Ok?
    ensures var v, v' := e.vars, In(e, b).value.vars;
            && (v'.receivedSighup <==>
                  Reads(e, Take(b), SIGHUP) || (v.receivedSighup && !Reads(e, Take(b), POWERON)))
            && (v'.receivedComShutdown <==>
                  Reads(e, Take(b), SHUTDOWN) || (v.receivedComShutdown && !Reads(e, Take(b), POWERON)))
  {
    if !e.firstRun {
      var e1 := ReceiveSignals(e, b);
      assert Valid(e1);
      hide Valid, TakeByte, TransferHook, Acknowledge, RequestBit, AcknowledgeBit, Low6;
      var e2 := (if e1.vars.receivedRequest then ReadHook(e1, b) else ReadObject(e1, b)).value;
      HooksFrame(e2);
    }
  }

  lemma {:induction false} RemembersExactly(role: Role, objects: seq<seq<byte>>, es: seq<Endpoint>, fs: seq<Feed>,
                                            k: nat)
    requires Run(role, objects, es, fs) && k <= |fs|
    ensures es[k].vars.receivedSighup <==> Heard(es, fs, SIGHUP, k)
    ensures es[k].vars.receivedComShutdown <==> Heard(es, fs, SHUTDOWN, k)
  {
    hide Valid, Fed, Reads, Heard;
    if k == 0 {
      assert !Heard(es, fs, SIGHUP, 0) && !Heard(es, fs, SHUTDOWN, 0) by { NothingHeard(es, fs); }
    } else {
      RemembersExactly(role, objects, es, fs, k - 1);
      assert Valid(es[k - 1]) && Fed(es[k - 1], fs[k - 1]) == Ok(es[k]);
      Remembers(es[k - 1], fs[k - 1]);
      HeardNext(es, fs, SIGHUP, k - 1);
      HeardNext(es, fs, SHUTDOWN, k - 1);
    }
  }

  lemma NothingHeard(es: seq<Endpoint>, fs: seq<Feed>)
    requires |fs| < |es|
    ensures forall code :: !Heard(es, fs, code, 0)
  {
  }

  lemma TakesIdle(e: Endpoint, b: byte)
    requires Valid(e) && In(e, b).Ok? && !e.firstRun
    ensures In(e, b).value.vars.receivedIdle <==> Reads(e, Take(b), IDLE) && e.vars.receivedSighup
  {
    var e1 := ReceiveSignals(e, b);
    assert Valid(e1);
    hide Valid, TakeByte, TransferHook, Acknowledge, RequestBit, AcknowledgeBit, Low6;
    var e2 := (if e1.vars.receivedRequest then ReadHook(e1, b) else ReadObject(e1, b)).value;
    HooksFrame(e2);
  }

  /** The other side is known to idle exactly when it does so after its sighup. */
  lemma IdlesExactly(role: Role, objects: seq<seq<byte>>, es: seq<Endpoint>, fs: seq<Feed>, k: nat)
    requires Run(role, objects, es, fs) && k < |fs| && fs[k].Take? && !es[k].firstRun
    ensures es[k + 1].vars.receivedIdle <==> Reads(es[k], fs[k], IDLE) && Heard(es, fs, SIGHUP, k)
  {
    hide Valid, Reads, Heard, In;
    assert Valid(es[k]) && Fed(es[k], fs[k]) == Ok(es[k + 1]);
    RemembersExactly(role, objects, es, fs, k);
    TakesIdle(es[k], fs[k].b);
  }

  // ----- What is refused -----

  /** The hooks after the byte has been read have errors of their own. */
  lemma HooksRefuse(e: Endpoint)
    requires Valid(e)
    ensures TransferHook(e).Err? ==>
              TransferHook(e).error in {DuplicateReadlockRequest, SyncedObjectsAreNotSupposedToHaveaTransfer}
    ensures Acknowledge(e).Err? ==>
              Acknowledge(e).error in {AcknowledgeReceivedWithoutAnyRequest, PreviousTransferHasNotBeenAcknowledged,
                                       ReceivedATransferAcknowledgeOnReadlockedObject,
                                       ReceivedADuplicateTransferAcknowledgeOnObjectInTransfer}
  {
    hide Valid;
  }

  lemma InRefuses(e: Endpoint, b: byte)
    requires Valid(e) && !e.firstRun && RequestBit(b)
    ensures var e1 := ReceiveSignals(e, b);
            && Valid(e1)
            && (if ReadHook(e1, b).Err? then In(e, b) == Err(ReadHook(e1, b).error)
                else In(e, b).Err? ==>
                  In(e, b).error in {DuplicateReadlockRequest, SyncedObjectsAreNotSupposedToHaveaTransfer,
                                     AcknowledgeReceivedWithoutAnyRequest, PreviousTransferHasNotBeenAcknowledged,
                                     ReceivedATransferAcknowledgeOnReadlockedObject,
                                     ReceivedADuplicateTransferAcknowledgeOnObjectInTransfer})
  {
    hide RequestBit, AcknowledgeBit, Low6, ValidSizes, ValidSender, ValidReceiver, Acknowledge, TransferHook, ReadHook;
    var e1 := ReceiveSignals(e, b);
    if ReadHook(e1, b).Ok? {
      var e2 := ReadHook(e1, b).value;
      HooksRefuse(e2);
      if TransferHook(e2).Ok? {
        HooksRefuse(TransferHook(e2).value);
      }
    }
  }

  lemma RefusesByFlags(e: Endpoint, b: byte)
    requires Valid(e) && !e.firstRun && RequestBit(b)
    ensures var r, code, v := In(e, b), Low6(b), e.vars;
            && (r == Err(DuplicateSighup) <==> code == SIGHUP && v.receivedSighup)
            && (r == Err(DuplicateComShutdown) <==> code == SHUTDOWN && v.receivedComShutdown && !v.receivedSighup)
            && (r == Err(NotIdleAfterSighup) <==>
                  v.receivedSighup && code != SIGHUP && code != IDLE && code != POWERON)
            && (r == Err(PreviousTransferRequestsWereNotCleared) <==>
                  code == POWERON && (v.acknowledgeRequested || AcknowledgeBit(b)))
            && (r == Err(HotplugAfterUnexpectedShutdown) <==>
                  code == POWERON && !v.acknowledgeRequested && !AcknowledgeBit(b) && e.rx.lock)
  {
    InRefuses(e, b);
    hide RequestBit, AcknowledgeBit, Low6, ValidSizes, ValidSender, In;
  }

  /** Which control bytes and requests are refused for what has come before, over every stream of bytes:
      since the last power-on one sighup, one com_shutdown before it, and nothing but idle after it are
      taken; and a power-on only with no request open, no acknowledge in it and no object half received. */
  lemma RefusesExactly(role: Role, objects: seq<seq<byte>>, es: seq<Endpoint>, fs: seq<Feed>, k: nat, b: byte)
    requires Run(role, objects, es, fs) && k <= |fs| && Valid(es[k]) && !es[k].firstRun && RequestBit(b)
    ensures var r, code := In(es[k], b), Low6(b);
            && (r == Err(DuplicateSighup) <==> code == SIGHUP && Heard(es, fs, SIGHUP, k))
            && (r == Err(DuplicateComShutdown) <==>
                  code == SHUTDOWN && Heard(es, fs, SHUTDOWN, k) && !Heard(es, fs, SIGHUP, k))
            && (r == Err(NotIdleAfterSighup) <==>
                  code != SIGHUP && code != IDLE && code != POWERON && Heard(es, fs, SIGHUP, k))
            && (r == Err(PreviousTransferRequestsWereNotCleared) <==>
                  code == POWERON && (es[k].vars.acknowledgeRequested || AcknowledgeBit(b)))
            && (r == Err(HotplugAfterUnexpectedShutdown) <==>
                  code == POWERON && !es[k].vars.acknowledgeRequested && !AcknowledgeBit(b) && es[k].rx.lock)
  {
    hide *;
    assert k < |es| by { RunLength(role, objects, es, fs); }
    RemembersExactly(role, objects, es, fs, k);
    RefusesByFlags(es[k], b);
  }

  lemma RunLength(role: Role, objects: seq<seq<byte>>, es: seq<Endpoint>, fs: seq<Feed>)
    requires Run(role, objects, es, fs)
    ensures |es| == |fs| + 1
  {
  }

  /** A data byte is refused exactly when nothing is being received. */
  lemma RefusesData(e: Endpoint, b: byte)
    requires Valid(e) && !e.firstRun && !RequestBit(b)
    ensures In(e, b) == Err(NoIdleReceivedAndNoReceivelockObtained) <==>
              !e.rx.lock && forall j :: 0 <= j < |e.objects| ==> !e.rx.readLock[j]
    ensures In(e, b) != Err(PreviousReadobjectHasNotFinished)
  {
    hide RequestBit, AcknowledgeBit, ValidSizes, ValidSender, Acknowledge, TransferHook, TakeByte;
    var e1 := ReceiveSignals(e, b);
    if ReadObject(e1, b).Ok? {
      var e2 := ReadObject(e1, b).value;
      HooksRefuse(e2);
      if TransferHook(e2).Ok? {
        HooksRefuse(TransferHook(e2).value);
      }
    }
  }

  /** A request is refused exactly when its object is being received or sent already; that for the object
      this side has just asked for itself is passed over. */
  lemma RefusesRequest(e: Endpoint, b: byte)
    requires Valid(e) && !e.firstRun && RequestBit(b) && !e.vars.receivedSighup
    requires !IsControl(Low6(b)) && 0 < Low6(b) < 0x3F
    ensures |e.rx.readLock| == |e.tx.transfer| == NUM_IDS
    ensures var r, j := In(e, b), Low6(b) - LOWER_STATES;
            && 0 <= j < NUM_IDS
            && (r == Err(DuplicateReadlockRequest) <==> j != e.waiting && e.rx.readLock[j])
            && (r == Err(SyncedObjectsAreNotSupposedToHaveaTransfer) <==>
                  j != e.waiting && !e.rx.readLock[j] && e.tx.transfer[j])
  {
    var e1 := ReceiveSignals(e, b);
    assert Valid(e1);
    hide RequestBit, AcknowledgeBit, Low6, Valid, Acknowledge, TransferHook;
    var e2 := ReadHook(e1, b).value;
    GrantRefuses(e2);
    if TransferHook(e2).Ok? {
      HooksRefuse(TransferHook(e2).value);
    }
  }

  lemma GrantRefuses(e: Endpoint)
    requires Valid(e) && e.incoming < NUM_IDS
    ensures |e.rx.readLock| == |e.tx.transfer| == NUM_IDS
    ensures var r, j := TransferHook(e), e.incoming;
            && (r == Err(DuplicateReadlockRequest) <==> j != e.waiting && e.rx.readLock[j])
            && (r == Err(SyncedObjectsAreNotSupposedToHaveaTransfer) <==>
                  j != e.waiting && !e.rx.readLock[j] && e.tx.transfer[j])
            && (r.Err? ==> j != e.waiting && (e.rx.readLock[j] || e.tx.transfer[j]))
  {
  }

  /** An idle byte is refused exactly when its acknowledge bit is not what is due, or grants what is being
      received or sent already; and an acknowledge that is taken moves the object from asked for to in
      transfer. */
  lemma RefusesAcknowledge(e: Endpoint, b: byte)
    requires Valid(e) && !e.firstRun && RequestBit(b) && Low6(b) == IDLE
    ensures |e.rx.readLock| == |e.tx.transfer| == |e.sync| == NUM_IDS
    ensures var r, due, j := In(e, b), e.vars.acknowledgeRequested, e.waiting;
            var granted := AcknowledgeBit(b) && due && j < NUM_IDS;
            && (r == Err(AcknowledgeReceivedWithoutAnyRequest) <==> AcknowledgeBit(b) && !due)
            && (r == Err(PreviousTransferHasNotBeenAcknowledged) <==> !AcknowledgeBit(b) && due)
            && (r == Err(ReceivedATransferAcknowledgeOnReadlockedObject) <==> granted && e.rx.readLock[j])
            && (r == Err(ReceivedADuplicateTransferAcknowledgeOnObjectInTransfer) <==>
                  granted && !e.rx.readLock[j] && e.tx.transfer[j])
            && (r.Ok? && granted ==>
                  && r.value.tx.transfer == e.tx.transfer[j := true] && r.value.sync == e.sync[j := false]
                  && !r.value.vars.acknowledgeRequested)
            && (r.Ok? && !granted ==> r.value.tx == e.tx && r.value.sync == e.sync)
  {
    var e1 := ReceiveSignals(e, b);
    assert Valid(e1);
    hide RequestBit, AcknowledgeBit, Low6, ValidSizes, ValidSender, ValidReceiver;
    var e2 := ReadHook(e1, b).value;
    assert TransferHook(e2) == Ok(e2);
    hide ReadHook, TransferHook;
  }
}
