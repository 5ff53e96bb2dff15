/** From the stop request to the end: how long a link that has been told to stop goes on, and what
    it leaves behind. */
module Stopping {
  import opened Results
  import opened Bits
  import opened Codec
  import opened Endpoint
  import opened Pair
  import opened Mirror
  import opened Safety
  import opened Delivery
  import opened Shutdown
  import opened Values
  import opened Progress

  /** A stop request given to the FPGA outlives the bytes it reads, but for power-on. */
  lemma StopRequestSurvives(e: Endpoint, b: byte)
    requires Valid(e) && e.role.Fpga? && !e.firstRun && In(e, b).Ok?
    ensures In(e, b).value.vars.descendantsNotified <==>
              e.vars.descendantsNotified && !(RequestBit(b) && Low6(b) == POWERON)
  {
    hide ReadHook, TransferHook, Acknowledge, TakeByte, OpenRead, Low6, RequestBit, AcknowledgeBit,
         ValidSizes, ValidSender, ValidReceiver;
    var e1 := ReceiveSignals(e, b);
    if e1.vars.receivedRequest {
      HookNotified(e1, b);
      HooksFrame(ReadHook(e1, b).value);
    } else {
      HooksFrame(ReadObject(e1, b).value);
    }
  }

  lemma HookNotified(e: Endpoint, b: byte)
    requires Valid(e) && e.role.Fpga? && ReadHook(e, b).Ok?
    ensures ReadHook(e, b).value.vars.descendantsNotified <==> e.vars.descendantsNotified && Low6(b) != POWERON
  {
    hide ValidSizes, ValidSender, ValidReceiver, Low6, RequestedId;
    var code := Low6(b);
    if code == POWERON {
    } else if code == SHUTDOWN {
    } else {
    }
  }

  /** Both sides have sent power-on, and none is left for the FPGA to read. */
  predicate PoweredOn(s: System) {
    Running(s) && (s.phase.FpgaIn? && RequestBit(s.wire) ==> Low6(s.wire) != POWERON)
  }

  /** The FPGA has been told to stop, and no power-on will make it forget. */
  predicate Told(s: System) {
    PoweredOn(s) && s.fpga.vars.descendantsNotified
  }

  lemma NoPowerOnAgain(x: Endpoint, y: Endpoint, copyX: seq<seq<byte>>, copyY: seq<seq<byte>>)
    requires Taken(x, y, copyX, copyY) && !y.firstRun && Out(y).Ok?
    ensures RequestBit(Out(y).value.1) ==> Low6(Out(y).value.1) != POWERON
  {
    hide Taken, Out, RequestBit, Low6, AcknowledgeBit, TransfersPending, WritesPending, IncomingShutdownQuery,
         OutgoingSighupQuery;
    FramedOut(x, y, copyX, copyY);
    assert ValidSizes(y.objects) by { TakenSizes(x, y, copyX, copyY); }
  }

  lemma ToldTurn(s: System, s': System)
    requires Turned(s, s') && Told(s)
    ensures Told(s')
  {
    hide In, Out, Sent, Taken, ValidSizes, ValidSender, ValidReceiver, Closing, Timely, Settled, NarrowSystem,
         Unstopped, Low6, RequestBit;
    match s.phase
    case FpgaIn =>
      Roles(s);
      StopRequestSurvives(s.fpga, s.wire);
      InFrame(s.fpga, s.wire);
    case FpgaOut =>
      OutFrame(s.fpga);
    case McuIn =>
      InFrame(s.mcu, s.wire);
    case McuOut =>
      OutFrame(s.mcu);
      NoPowerOnAgain(s.fpga, s.mcu, s.fpgaCopy, s.mcuCopy);
  }

  /** With nothing left, a side that may close does. */
  lemma ChooseClosing(e: Endpoint, copy: seq<seq<byte>>)
    requires Side(e, copy) && !e.firstRun && None(e.sync) && None(e.tx.transfer) && None(e.rx.readLock)
    requires !e.vars.acknowledgeRequested && !e.vars.receivedAcknowledge && e.vars.descendantsNotified
    ensures (e.role.Mcu? ==> e.vars.receivedComShutdown) && !e.vars.sentComShutdown ==> Choose(e).Shutdown?
    ensures e.role.Fpga? && e.vars.sentComShutdown && e.vars.receivedComShutdown && !e.vars.sentSighup ==>
              Choose(e).Sighup?
  {
    hide Copied, ValidSender, ValidReceiver, Blank, RequestBitClear;
    NonePending(e, copy);
    assert !TransfersPending(e);
  }

  lemma FpgaReadsIdle(s: System, s': System)
    requires Turned(s, s') && Running(s) && s.phase.FpgaIn? && !s.fpga.vars.acknowledgeRequested
    ensures !s'.fpga.vars.receivedAcknowledge && s'.mcu == s.mcu
    ensures s'.fpga.vars.sentComShutdown == s.fpga.vars.sentComShutdown
    ensures s'.fpga.vars.receivedComShutdown == s.mcu.vars.sentComShutdown
  {
    hide In, Sent, Taken, ValidSizes, ValidSender, ValidReceiver, Closing, Timely, Settled, Prompt;
    NoSighupYet(s);
    SentFlags(s.mcu, s.fpga, s.mcuCopy, s.fpgaCopy, s.wire);
    InEffect(s.mcu, s.fpga, s.mcuCopy, s.fpgaCopy, s.wire);
    TakenFlags(s'.mcu, s'.fpga, s'.mcuCopy, s'.fpgaCopy);
  }

  lemma McuReadsIdle(s: System, s': System)
    requires Turned(s, s') && Running(s) && s.phase.McuIn? && !s.mcu.vars.acknowledgeRequested
    ensures !s'.mcu.vars.receivedAcknowledge && s'.fpga == s.fpga
    ensures s'.mcu.vars.sentComShutdown == s.mcu.vars.sentComShutdown
    ensures s'.mcu.vars.receivedComShutdown == s.fpga.vars.sentComShutdown
  {
    hide In, Sent, Taken, ValidSizes, ValidSender, ValidReceiver, Closing, Timely, Settled, Prompt;
    NoSighupYet(s);
    SentFlags(s.fpga, s.mcu, s.fpgaCopy, s.mcuCopy, s.wire);
    InEffect(s.fpga, s.mcu, s.fpgaCopy, s.mcuCopy, s.wire);
    TakenFlags(s'.fpga, s'.mcu, s'.fpgaCopy, s'.mcuCopy);
  }

  lemma FpgaCloses(s: System, s': System)
    requires Turned(s, s') && Told(s) && s.phase.FpgaOut? && AtMost(s, 0, 0) && !s.fpga.vars.receivedAcknowledge
    ensures s'.mcu == s.mcu && s'.fpga.vars.sentComShutdown
    ensures s.fpga.vars.sentComShutdown && s.fpga.vars.receivedComShutdown ==> s'.fpga.vars.sentSighup
  {
    hide Out, Sent, Taken, ValidSizes, ValidSender, ValidReceiver, Timely, NarrowSystem, Unstopped, None,
         Choose, Work, RequestBit, Low6, Side, Settled;
    WorkDone(s);
    OutRest(s.mcu, s.fpga, s.mcuCopy, s.fpgaCopy);
    ChooseClosing(s.fpga, s.fpgaCopy);
    OutFrame(s.fpga);
  }

  lemma McuCloses(s: System, s': System)
    requires Turned(s, s') && Told(s) && s.phase.McuOut? && AtMost(s, 0, 0) && !s.mcu.vars.receivedAcknowledge
    requires s.mcu.vars.receivedComShutdown
    ensures s'.fpga == s.fpga && s'.mcu.vars.sentComShutdown
    ensures s.fpga.vars.sentSighup ==> s'.mcu.vars.sentSighup
  {
    hide Out, Sent, Taken, ValidSizes, ValidSender, ValidReceiver, Timely, NarrowSystem, Unstopped, None,
         Choose, Work, RequestBit, Low6, Side, Settled;
    WorkDone(s);
    OutRest(s.fpga, s.mcu, s.fpgaCopy, s.mcuCopy);
    ChooseClosing(s.mcu, s.mcuCopy);
    OutFrame(s.mcu);
    if s.fpga.vars.sentSighup {
      McuAnswers(s);
    }
  }

  /** One half turn of a link with nothing left to send whose FPGA has been told to stop. */
  lemma ToldHalf(s: System) returns (s': System)
    requires Driven(s) && Told(s) && AtMost(s, 0, 0) && !Stopped(s)
    ensures Go(s, 1) == Ok(s') && Turned(s, s')
    ensures Driven(s') && Told(s') && AtMost(s', 0, 0)
    ensures s'.phase == Following(s.phase)
  {
    hide Driven, AtMost, Go, Told, Turned;
    HalfTurnWork(s, 0, 0);
    s' := Go(s, 1).value;
    ToldTurn(s, s');
  }

  /** The four half turns from the FPGA's reading on: both sides have sent com_shutdown, or, if they
      had before, both have sent sighup. */
  lemma ClosingRound(s: System)
    requires Driven(s) && Told(s) && AtMost(s, 0, 0) && s.phase.FpgaIn? && !Stopped(s)
    ensures Go(s, 4).Ok?
    ensures var t := Go(s, 4).value;
            && Driven(t) && Told(t) && AtMost(t, 0, 0) && t.phase.FpgaIn?
            && t.fpga.vars.sentComShutdown && t.mcu.vars.sentComShutdown
            && (s.fpga.vars.sentComShutdown && s.mcu.vars.sentComShutdown ==> Stopped(t) && t.mcu.vars.sentSighup)
  {
    hide Driven, AtMost, Go, Told, Turned;
    var s1 := ToldHalf(s);
    assert Running(s) by { ToldIsRunning(s); }
    assert !s.fpga.vars.acknowledgeRequested by { WorkDone(s); }
    FpgaReadsIdle(s, s1);
    var s2 := ToldHalf(s1);
    FpgaCloses(s1, s2);
    var s3 := ToldHalf(s2);
    assert Running(s2) by { ToldIsRunning(s2); }
    assert !s2.mcu.vars.acknowledgeRequested by { WorkDone(s2); }
    McuReadsIdle(s2, s3);
    var s4 := ToldHalf(s3);
    McuCloses(s3, s4);
    GoOn(s, 1, 1);
    GoOn(s, 2, 1);
    GoOn(s, 3, 1);
  }

  lemma ToldIsRunning(s: System)
    requires Told(s)
    ensures Running(s)
  {
  }

  /** What the end looks like: `handshake_query` has stopped the link. */
  predicate Over(s: System) {
    Stopped(s) && s.mcu.vars.sentSighup
  }

  lemma OverStays(s: System, n: nat)
    requires Driven(s) && Stopped(s)
    ensures Go(s, n) == Ok(s) && Over(s)
  {
    hide Driven, InStep;
    DrivenIsValid(s);
  }

  /** From the FPGA's reading on, eight half turns end it. */
  lemma ClosesInTwo(s: System, n: nat)
    requires Driven(s) && Told(s) && AtMost(s, 0, 0) && s.phase.FpgaIn? && n >= 8
    ensures Go(s, n).Ok? && Over(Go(s, n).value)
  {
    hide Driven, AtMost, Go, Told, Over;
    if Stopped(s) {
      OverStays(s, n);
    } else {
      ClosingRound(s);
      var t := Go(s, 4).value;
      GoOn(s, 4, n - 4);
      if Stopped(t) {
        OverStays(t, n - 4);
      } else {
        ClosingRound(t);
        OverStays(Go(t, 4).value, n - 8);
        GoOn(t, 4, n - 8);
      }
    }
  }

  lemma {:induction false} Closes(s: System, n: nat)
    requires Driven(s) && Told(s) && AtMost(s, 0, 0) && n >= 11
    ensures Go(s, n).Ok? && Over(Go(s, n).value)
  {
    hide Driven, AtMost, Go, Told, Over, Turned;
    if s.phase.FpgaIn? {
      ClosesInTwo(s, n);
    } else {
      var s1 := ToldHalf(s);
      GoOn(s, 1, n - 1);
      if s1.phase.FpgaIn? {
        ClosesInTwo(s1, n - 1);
      } else {
        var s2 := ToldHalf(s1);
        GoOn(s1, 1, n - 2);
        if s2.phase.FpgaIn? {
          ClosesInTwo(s2, n - 2);
        } else {
          var s3 := ToldHalf(s2);
          GoOn(s2, 1, n - 3);
          ClosesInTwo(s3, n - 3);
        }
      }
    }
  }

  lemma {:induction false} GoTold(s: System, f: nat, m: nat, n: nat)
    requires Driven(s) && Told(s) && AtMost(s, f, m)
    ensures Go(s, n).Ok? && Told(Go(s, n).value)
    decreases n
  {
    hide Driven, AtMost, Go, Told, Turned;
    GoNowhere(s);
    if n > 0 {
      HalfTurnWork(s, f, m);
      var s' := Go(s, 1).value;
      if !Stopped(s) {
        ToldTurn(s, s');
      }
      var f', m' := OneHalf(s, f, m);
      GoTold(s', f', m', n - 1);
      GoOn(s, 1, n - 1);
    }
  }

  /** Shutdown progress: with at most k bytes left on each side, no more local writes and com_shutdown
      in time, 4k + 11 half turns after the FPGA was told to stop both sides have sent sighup, the
      link has stopped, nothing aborted on the way, both sides are at rest and the memories equal. */
  lemma ShutsDown(s: System, k: nat, n: nat)
    requires Driven(s) && Told(s) && AtMost(s, k, k) && n >= 4 * k + 11
    ensures Go(s, n).Ok?
    ensures var t := Go(s, n).value;
            && t.fpga.vars.sentSighup && t.mcu.vars.sentSighup
            && ValidSystem(t) && !Enabled(t, HalfTurn)
            && AtRest(t.fpga) && AtRest(t.mcu)
            && t.fpga.objects == t.mcu.objects && Outcome(s, t)
  {
    hide Driven, AtMost, Go, Told, AtRest, ValidSystem, Inv, Outcome;
    ToldIsRunning(s);
    Rounds(s, k);
    GoTold(s, k, k, 4 * k);
    Closes(Go(s, 4 * k).value, n - 4 * k);
    GoOn(s, 4 * k, n - 4 * k);
    Converges(s, k, n);
  }

  /** Telling the FPGA to stop leaves the measure alone. */
  lemma NotifyKeepsWork(e: Endpoint)
    requires Valid(e)
    ensures Work(StopNotifier(e)) == Work(e)
  {
    hide ValidSender, ValidReceiver, Sum;
    assert Loads(StopNotifier(e)) == Loads(e);
  }

  /** Told, and driven, is what a link with frugal clients is once the FPGA is told to stop. */
  lemma TellingIsToldAndDriven(s: System, k: nat)
    requires Inv(s) && Settled(s) && ValidSystem(s) && NarrowSystem(s) && PoweredOn(s) && AtMost(s, k, k)
    ensures var s' := s.(fpga := StopNotifier(s.fpga));
            Step(s, Notify) == Ok(s') && Driven(s') && Told(s') && AtMost(s', k, k)
  {
    hide InStep, Closing, None, Narrow, Prompt, Work, Low6, RequestBit, ValidSizes, ValidSender, ValidReceiver;
    NotifyKeepsInv(s);
    NotifyKeepsNarrow(s.fpga, s.phase.FpgaOut?);
    NotifyKeepsWork(s.fpga);
    NarrowIsDriven(s.(fpga := StopNotifier(s.fpga)));
  }

  lemma OutcomeOf(s: System, s': System, t: System, role: Role, j: nat)
    requires Stands(s, role, j) && s' == s.(fpga := StopNotifier(s.fpga)) && Outcome(s', t)
    ensures j < |s.fpga.objects| && j < |t.fpga.objects| && t.fpga.objects[j] == SideOf(s, role).objects[j]
  {
    assert Stands(s', role, j);
  }

  lemma OutcomeSizes(s: System, t: System)
    requires Outcome(s, t)
    ensures |t.fpga.objects| == |s.fpga.objects|
  {
    hide ValidSystem;
  }

  lemma RunSizes(objects: seq<seq<byte>>, wire: byte, ss: seq<System>, acts: seq<Action>)
    requires Run(objects, wire, ss, acts)
    ensures |ss[|acts|].fpga.objects| == |objects|
  {
    hide Next;
    RunCounts(objects, wire, ss, acts, 0, |acts|);
  }

  /** Shutdown over runs: take any run in which clients are frugal and stop writing once their side has
      sent com_shutdown, and in whose last state both power-ons are past and at most k bytes are left
      on each side. Tell the FPGA to stop, in whatever phase the link is, and leave it to itself: after
      4k + 11 half turns both sides have sent sighup, the link has stopped without an abort, and the
      two memories are equal: of every object its clients have been polite about they hold what was
      written last. */
  lemma StopsAfterAnyRun(objects: seq<seq<byte>>, wire: byte, ss: seq<System>, acts: seq<Action>, k: nat, n: nat)
    requires FrugalRun(objects, wire, ss, acts)
    requires forall i :: 0 <= i < |acts| ==> Quiet(ss[i], acts[i])
    requires PoweredOn(ss[|acts|]) && AtMost(ss[|acts|], k, k) && n >= 4 * k + 11
    ensures ValidSystem(ss[|acts|]) && Step(ss[|acts|], Notify).Ok?
    ensures Go(Step(ss[|acts|], Notify).value, n).Ok?
    ensures var t := Go(Step(ss[|acts|], Notify).value, n).value;
            && t.fpga.vars.sentSighup && t.mcu.vars.sentSighup
            && ValidSystem(t) && !Enabled(t, HalfTurn)
            && AtRest(t.fpga) && AtRest(t.mcu)
            && t.fpga.objects == t.mcu.objects && |t.fpga.objects| == |objects|
            && (forall j :: 0 <= j < |objects| && (forall i :: 0 <= i < |acts| ==> Polite(ss[i], acts[i], j)) ==>
                  t.fpga.objects[j] == LastWritten(objects, acts, j))
  {
    hide Inv, ValidSystem, Step, Enabled, Timely, Frugal, Init, Go, AtRest, AtMost, Driven, Told, PoweredOn,
         NarrowSystem,
         Settled, Quiet, Outcome, Stands, Polite, LastWritten;
    FrugalClientsAreTimely(objects, wire, ss, acts);
    FrugalRunNarrow(objects, wire, ss, acts, |acts|);
    RunSettled(objects, wire, ss, acts, |acts|);
    var s := ss[|acts|];
    InvIsValid(s);
    TellingIsToldAndDriven(s, k);
    var s' := s.(fpga := StopNotifier(s.fpga));
    ShutsDown(s', k, n);
    var t := Go(s', n).value;
    forall j | 0 <= j < |objects| && (forall i :: 0 <= i < |acts| ==> Polite(ss[i], acts[i], j))
      ensures j < |t.fpga.objects| && t.fpga.objects[j] == LastWritten(objects, acts, j)
    {
      var role := LastWrittenStands(objects, wire, ss, acts, |acts|, j);
      assert acts[..|acts|] == acts;
      OutcomeOf(s, s', t, role, j);
    }
    RunSizes(objects, wire, ss, acts);
    OutcomeSizes(s', t);
  }
}
