/** When a side is told to stop, and what it is doing at that moment: the FPGA from outside, the MCU by
    the FPGA's com_shutdown. */
module Interrupt {
  import opened Results
  import opened Bits
  import opened Codec
  import opened Endpoint
  import opened Link
  import opened Pair
  import opened Mirror
  import opened Safety
  import opened Shutdown
  import opened Stopping

  /** com_shutdown is what an endpoint hears when its flag goes up. */
  lemma HearsShutdown(e: Endpoint, b: byte)
    requires Valid(e) && In(e, b).Ok? && !e.vars.receivedComShutdown && In(e, b).value.vars.receivedComShutdown
    ensures !e.firstRun && RequestBit(b) && Low6(b) == SHUTDOWN
  {
    hide ReadHook, TransferHook, Acknowledge, TakeByte, OpenRead, Low6, RequestBit, AcknowledgeBit;
    hide ValidSizes, ValidSender, ValidReceiver;
    if !e.firstRun {
      var e1 := ReceiveSignals(e, b);
      if e1.vars.receivedRequest {
        HookHears(e1, b);
        HooksFrame(ReadHook(e1, b).value);
      } else {
        HooksFrame(ReadObject(e1, b).value);
      }
    }
  }

  lemma HookHears(e: Endpoint, b: byte)
    requires Valid(e) && ReadHook(e, b).Ok?
    ensures ReadHook(e, b).value.vars.receivedComShutdown ==> e.vars.receivedComShutdown || Low6(b) == SHUTDOWN
  {
    hide Valid, Low6, RequestedId;
  }

  lemma OthersKeepLocks(s: System, a: Action, s': System)
    requires Inv(s) && Next(s, a, s') && !(a.HalfTurn? && s.phase.McuIn?)
    ensures s'.mcu.vars.receivedComShutdown == s.mcu.vars.receivedComShutdown
  {
    hide In, Out, Timely, InStep, Closing, ValidSizes, ValidSender, ValidReceiver;
    if a.HalfTurn? && s.phase.McuOut? {
      OutFrame(s.mcu);
    }
  }

  /** The step by which the MCU hears of the shutdown finds it receiving nothing, and leaves it so. */
  lemma McuHearsNothingReceived(s: System, a: Action, s': System)
    requires Inv(s) && Next(s, a, s')
    requires !s.mcu.vars.receivedComShutdown && s'.mcu.vars.receivedComShutdown
    ensures None(s.mcu.rx.readLock) && None(s'.mcu.rx.readLock)
  {
    hide In, Out, Timely, InStep, Closing, ValidSizes, ValidSender, ValidReceiver, None, RequestBit, Low6;
    if a.HalfTurn? && s.phase.McuIn? {
      HearsShutdown(s.mcu, s.wire);
      ShutdownInterruptsNoRead(s);
      ControlKeepsLocks(s);
    } else {
      OthersKeepLocks(s, a, s');
    }
  }

  lemma ControlKeepsLocks(s: System)
    requires Inv(s) && s.phase.McuIn? && !s.mcu.firstRun && RequestBit(s.wire) && Low6(s.wire) == SHUTDOWN
    requires In(s.mcu, s.wire).Ok?
    ensures In(s.mcu, s.wire).value.rx.readLock == s.mcu.rx.readLock
  {
    hide Taken, In, Copied, Coherent, ValidSizes, ValidSender, ValidReceiver, DataInFlight, RequestBit,
         AcknowledgeBit, Low6, Closing, Exclusive, Synced, Blank, Handled;
    NoSighupYet(s);
    InKeeps(s.fpga, s.mcu, s.fpgaCopy, s.mcuCopy, s.wire);
    var e := In(s.mcu, s.wire).value;
    TakenLocks(s.fpga, e, CopyOnGrant(s.fpga, s.mcu, e, s.fpgaCopy), s.mcuCopy);
  }

  lemma TakenLocks(x: Endpoint, y: Endpoint, copyX: seq<seq<byte>>, copyY: seq<seq<byte>>)
    requires Taken(x, y, copyX, copyY)
    ensures !x.vars.acknowledgeRequested ==> y.rx.readLock == x.tx.transfer
  {
    hide Side, Synced, Coherent;
  }

  /** The FPGA is on its way out: told to stop, or past com_shutdown. */
  predicate Leaving(e: Endpoint) {
    e.vars.descendantsNotified || e.vars.sentComShutdown
  }

  /** Nothing but the stop request itself starts the FPGA on its way out. */
  lemma OnlyToldToLeave(s: System, a: Action, s': System)
    requires Inv(s) && Next(s, a, s') && !a.Notify? && !Leaving(s.fpga)
    ensures !Leaving(s'.fpga)
  {
    hide In, Out, Timely, InStep, ValidSizes, ValidSender, ValidReceiver, Choose;
    if a.HalfTurn? && s.phase.FpgaIn? {
      InFrame(s.fpga, s.wire);
      if s.fpga.firstRun {
        FirstInIsNothing(s.fpga, s.wire);
      } else {
        StopRequestSurvives(s.fpga, s.wire);
      }
    } else if a.HalfTurn? && s.phase.FpgaOut? {
      OutFrame(s.fpga);
      ChooseFrame(s.fpga);
    }
  }

  lemma FirstInIsNothing(e: Endpoint, b: byte)
    requires Valid(e) && e.firstRun
    ensures In(e, b) == Ok(e)
  {
    hide Valid;
  }
}
