/** Two serial endpoints wired to each other: what the system steps say of their states, the objects
    do. */
module Exchange {
  import opened Results
  import opened Bits
  import opened Endpoint
  import opened Mirror
  import opened Shutdown
  import opened Values
  import opened Progress
  import opened Stopping
  import opened Serial

  /** s is the state of the two objects. */
  ghost predicate Shows(s: System, fpga: Serial, mcu: Serial)
    reads fpga.Parts(), mcu.Parts()
  {
    && fpga.Separate() && mcu.Separate()
    && fpga.Parts() !! mcu.Parts()
    && s.fpga == fpga.State() && s.mcu == mcu.State()
  }

  /** The half turns of the system, taken apart into what each side computes. */
  lemma FpgaMoves(s: System)
    requires Driven(s) && s.phase.FpgaIn? && !Stopped(s)
    ensures ValidSystem(s) && Go(s, 1).Ok? && Go(s, 2).Ok?
    ensures var s1, t := Go(s, 1).value, Go(s, 2).value;
            && In(s.fpga, s.wire) == Ok(s1.fpga) && Valid(s1.fpga)
            && Out(s1.fpga) == Ok((t.fpga, t.wire))
            && t.mcu == s.mcu && t.phase.McuIn? && Driven(t)
  {
    hide Driven, Go, In, Out, Timely, InStep, Closing, ValidSizes, ValidSender, ValidReceiver;
    DrivenIsValid(s);
    DrivenTurn(s);
    var s1 := Go(s, 1).value;
    DrivenIsValid(s1);
    DrivenTurn(s1);
    GoOn(s, 1, 1);
  }

  lemma McuMoves(s: System)
    requires Driven(s) && s.phase.McuIn?
    ensures ValidSystem(s) && Go(s, 1).Ok? && Go(s, 2).Ok?
    ensures var s1, t := Go(s, 1).value, Go(s, 2).value;
            && In(s.mcu, s.wire) == Ok(s1.mcu) && Valid(s1.mcu)
            && Out(s1.mcu) == Ok((t.mcu, t.wire))
            && t.fpga == s.fpga && t.phase.FpgaIn? && Driven(t)
  {
    hide Driven, Go, In, Out, Timely, InStep, Closing, ValidSizes, ValidSender, ValidReceiver;
    DrivenIsValid(s);
    DrivenTurn(s);
    var s1 := Go(s, 1).value;
    DrivenIsValid(s1);
    DrivenTurn(s1);
    GoOn(s, 1, 1);
  }

  /** One turn of the FPGA: its `event_loop` never aborts. */
  method FpgaTurn(fpga: Serial, mcu: Serial, wire: byte, ghost s: System) returns (out: byte, ghost t: System)
    requires Driven(s) && Shows(s, fpga, mcu) && s.phase.FpgaIn? && s.wire == wire && !Stopped(s)
    modifies fpga.Parts()
    ensures Go(s, 2) == Ok(t) && Driven(t) && Shows(t, fpga, mcu)
    ensures t.phase.McuIn? && t.wire == out
  {
    hide Driven, Go, In, Out, ValidSizes, ValidSender, ValidReceiver;
    FpgaMoves(s);
    var r := fpga.In(wire);
    assert r.Ok? && fpga.State() == Go(s, 1).value.fpga;
    var w := fpga.Out();
    out := w.value;
    t := Go(s, 2).value;
  }

  /** One turn of the MCU. */
  method McuTurn(fpga: Serial, mcu: Serial, wire: byte, ghost s: System) returns (out: byte, ghost t: System)
    requires Driven(s) && Shows(s, fpga, mcu) && s.phase.McuIn? && s.wire == wire
    modifies mcu.Parts()
    ensures Go(s, 2) == Ok(t) && Driven(t) && Shows(t, fpga, mcu)
    ensures t.phase.FpgaIn? && t.wire == out
  {
    hide Driven, Go, In, Out, ValidSizes, ValidSender, ValidReceiver;
    McuMoves(s);
    var r := mcu.In(wire);
    assert r.Ok? && mcu.State() == Go(s, 1).value.mcu;
    var w := mcu.Out();
    out := w.value;
    t := Go(s, 2).value;
  }

  lemma StopsInTime(s: System, k: nat, n: nat)
    requires Driven(s) && Told(s) && AtMost(s, k, k) && n >= 4 * k + 11
    ensures Go(s, n).Ok? && Stopped(Go(s, n).value)
  {
    hide Driven, Go, Told, AtMost, AtRest, ValidSystem, Enabled;
    ShutsDown(s, k, n);
    StoppedIsDisabled(Go(s, n).value);
  }

  lemma StoppedIsDisabled(s: System)
    requires ValidSystem(s) && !Enabled(s, HalfTurn)
    ensures Stopped(s)
  {
  }

  /** The end of the FPGA: told to stop, the two sides go on exchanging bytes until
      `handshake_query` stops them, which takes a bounded number of rounds; then nothing is left
      half done and the two memories are equal. */
  method WaitForSighup(fpga: Serial, mcu: Serial, wire: byte, ghost s: System, ghost k: nat)
    requires Driven(s) && Told(s) && AtMost(s, k, k)
    requires Shows(s, fpga, mcu) && s.phase.FpgaIn? && s.wire == wire
    modifies fpga.Parts(), mcu.Parts()
    ensures fpga.Ready() && mcu.Ready()
    ensures fpga.vars.sentSighup && mcu.vars.sentSighup
    ensures AtRest(fpga.State()) && AtRest(mcu.State())
    ensures fpga.memory[..] == mcu.memory[..]
    ensures Outcome(s, s.(fpga := fpga.State(), mcu := mcu.State()))
  {
    hide Driven, Go, Told, AtMost, AtRest, Valid;
    var b := wire;
    ghost var t, n := s, 0;
    GoNowhere(s);
    while !fpga.vars.sentSighup
      invariant Go(s, n) == Ok(t) && Driven(t) && Shows(t, fpga, mcu) && t.phase.FpgaIn? && t.wire == b
      decreases 4 * k + 15 - n
    {
      assert n < 4 * k + 11 by {
        if n >= 4 * k + 11 {
          StopsInTime(s, k, n);
        }
      }
      ghost var u;
      b, u := FpgaTurn(fpga, mcu, b, t);
      GoOn(s, n, 2);
      b, t := McuTurn(fpga, mcu, b, u);
      GoOn(s, n + 2, 2);
      n := n + 4;
    }
    OverStays(t, 4 * k + 11);
    GoOn(s, n, 4 * k + 11);
    ShutsDown(s, k, n + 4 * k + 11);
  }
}
