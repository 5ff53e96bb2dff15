/** The shortest life of a link: power-on, the stop request before anything has been written, and the
    shutdown handshake, byte by byte. */
module ShortRun {
  import opened Results
  import opened Bits
  import opened Endpoint
  import opened Mirror
  import opened Safety
  import opened Witness

  const TOLD := FRESH_VARS.(descendantsNotified := true)
  const STOPPING := TOLD.(sentComShutdown := true)
  const STOPPED := STOPPING.(receivedRequest := true, receivedComShutdown := true)
  const HEARD := TOLD.(receivedRequest := true, receivedComShutdown := true)

  function Side(role: Role, vars: ComVars): Endpoint {
    Fresh(role, vars, BOTH)
  }

  lemma SidesAreValid(role: Role, vars: ComVars, wires: Wires)
    ensures Valid(Fresh(role, vars, wires))
    ensures Fresh(role, vars, wires).objects == Objects()
  {
    Powers();
    hide Flags, Objects;
  }

  /** A side with nothing to send chooses by its handshake flags alone. */
  lemma ChoosesCode(e: Endpoint)
    requires Valid(e) && None(e.sync) && None(e.tx.transfer) && None(e.rx.readLock) && !e.firstRun && !e.tx.lock
    requires !e.vars.acknowledgeRequested && !e.vars.receivedAcknowledge && e.vars.descendantsNotified
    ensures !e.vars.sentComShutdown && (e.role.Mcu? ==> e.vars.receivedComShutdown) ==> Choose(e) == Shutdown
    requires e.vars.sentComShutdown ==> e.vars.receivedComShutdown && (e.role.Mcu? ==> e.vars.receivedSighup)
    ensures e.vars.sentComShutdown && !e.vars.sentSighup ==> Choose(e) == Sighup
  {
  }

  lemma Sends(role: Role, vars: ComVars)
    requires vars == TOLD || vars == HEARD || vars == STOPPED || vars == STOPPED.(receivedSighup := true)
    requires role.Mcu? ==> vars != TOLD && vars != STOPPED
    ensures Valid(Side(role, vars))
    ensures vars == TOLD || vars == HEARD ==>
              Choose(Side(role, vars)) == Shutdown
              && Out(Side(role, vars)) == Ok((Side(role, vars.(sentComShutdown := true)), 0xBC))
    ensures vars.sentComShutdown ==>
              Choose(Side(role, vars)) == Sighup
              && Out(Side(role, vars)) == Ok((Side(role, vars.(sentSighup := true)), 0xBD))
  {
    SidesAreValid(role, vars, BOTH);
    FlagsSet(false, false, false);
    hide Flags, Objects, Valid, Choose;
    ChoosesCode(Side(role, vars));
  }

  lemma Hears(role: Role, vars: ComVars, wires: Wires)
    requires wires == UP || wires == BOTH
    requires !vars.acknowledgeRequested && !vars.receivedAcknowledge && !vars.receivedIdle && !vars.receivedSighup
    requires role.Fpga? ==> vars.descendantsNotified
    ensures Valid(Fresh(role, vars, wires))
    ensures !vars.receivedComShutdown ==>
              In(Fresh(role, vars, wires), 0xBC) ==
                Ok(Side(role, vars.(receivedRequest := true, receivedComShutdown := true, descendantsNotified := true)))
    ensures In(Fresh(role, vars, wires), 0xBD) ==
              Ok(Side(role, vars.(receivedRequest := true, receivedSighup := true)))
  {
    SidesAreValid(role, vars, wires);
    hide Flags, Objects, Valid;
  }

  lemma Writes(f: Endpoint, m: Endpoint, w: byte, e: Endpoint, b: byte)
    requires Valid(f) && Valid(m) && f.objects == m.objects == Objects()
    requires None(f.tx.transfer) && None(m.tx.transfer)
    ensures Out(f) == Ok((e, b)) ==> Next(At(f, m, w, FpgaOut), HalfTurn, At(e, m, b, McuIn))
    ensures Out(m) == Ok((e, b)) ==> Next(At(f, m, w, McuOut), HalfTurn, At(f, e, b, FpgaIn))
  {
    hide Out, Valid, Objects, Choose;
  }

  lemma Reads(f: Endpoint, m: Endpoint, b: byte, e: Endpoint)
    requires Valid(f) && Valid(m) && Valid(e) && f.objects == m.objects == e.objects == Objects()
    ensures In(f, b) == Ok(e) && !f.vars.sentSighup ==>
              Next(At(f, m, b, FpgaIn), HalfTurn, At(e, m, b, FpgaOut))
    ensures In(m, b) == Ok(e) ==> Next(At(f, m, b, McuIn), HalfTurn, At(f, e, b, McuOut))
  {
    hide In, Valid, Objects;
    SameCopy(m, f, e);
    SameCopy(f, m, e);
  }

  lemma TransfersDown(role: Role, vars: ComVars, wires: Wires)
    ensures None(Fresh(role, vars, wires).tx.transfer)
  {
  }

  function Fpga(vars: ComVars): Endpoint {
    Side(Role.Fpga, vars)
  }

  function Mcu(vars: ComVars): Endpoint {
    Side(Role.Mcu, vars)
  }

  const OVER := STOPPED.(receivedSighup := true, sentSighup := true)

  /** The states from the end of power-on on. */
  function Stage(k: nat): System
    requires k <= 8
  {
    var powered := Fresh(Role.Mcu, FRESH_VARS, UP);
    match k
    case 0 => At(Fpga(FRESH_VARS), powered, 0xBE, FpgaOut)
    case 1 => At(Fpga(TOLD), powered, 0xBE, FpgaOut)
    case 2 => At(Fpga(STOPPING), powered, 0xBC, McuIn)
    case 3 => At(Fpga(STOPPING), Mcu(HEARD), 0xBC, McuOut)
    case 4 => At(Fpga(STOPPING), Mcu(STOPPED), 0xBC, FpgaIn)
    case 5 => At(Fpga(STOPPED), Mcu(STOPPED), 0xBC, FpgaOut)
    case 6 => At(Fpga(STOPPED.(sentSighup := true)), Mcu(STOPPED), 0xBD, McuIn)
    case 7 => At(Fpga(STOPPED.(sentSighup := true)), Mcu(STOPPED.(receivedSighup := true)), 0xBD, McuOut)
    case _ => At(Fpga(STOPPED.(sentSighup := true)), Mcu(OVER), 0xBD, FpgaIn)
  }

  lemma StageStep(k: nat)
    requires k < 8
    ensures Next(Stage(k), if k == 0 then Notify else HalfTurn, Stage(k + 1))
  {
    var s, s' := Stage(k), Stage(k + 1);
    SidesAreValid(Role.Fpga, s.fpga.vars, s.fpga.wires);
    SidesAreValid(Role.Mcu, s.mcu.vars, s.mcu.wires);
    SidesAreValid(Role.Fpga, s'.fpga.vars, s'.fpga.wires);
    SidesAreValid(Role.Mcu, s'.mcu.vars, s'.mcu.wires);
    TransfersDown(Role.Fpga, s.fpga.vars, s.fpga.wires);
    TransfersDown(Role.Mcu, s.mcu.vars, s.mcu.wires);
    hide Next, In, Out, Valid, Fresh, Objects;
    match k
    case 0 => Tells(s.fpga, s.mcu);
    case 1 =>
      Sends(Role.Fpga, TOLD);
      Writes(s.fpga, s.mcu, s.wire, s'.fpga, 0xBC);
    case 2 =>
      Hears(Role.Mcu, FRESH_VARS, UP);
      Reads(s.fpga, s.mcu, 0xBC, s'.mcu);
    case 3 =>
      Sends(Role.Mcu, HEARD);
      Writes(s.fpga, s.mcu, s.wire, s'.mcu, 0xBC);
    case 4 =>
      Hears(Role.Fpga, STOPPING, BOTH);
      Reads(s.fpga, s.mcu, 0xBC, s'.fpga);
    case 5 =>
      Sends(Role.Fpga, STOPPED);
      Writes(s.fpga, s.mcu, s.wire, s'.fpga, 0xBD);
    case 6 =>
      Hears(Role.Mcu, STOPPED, BOTH);
      Reads(s.fpga, s.mcu, 0xBD, s'.mcu);
    case _ =>
      Sends(Role.Mcu, STOPPED.(receivedSighup := true));
      Writes(s.fpga, s.mcu, s.wire, s'.mcu, 0xBD);
  }

  lemma {:induction false} RunTo(k: nat) returns (ss: seq<System>, acts: seq<Action>)
    requires k <= 8
    ensures Run(Objects(), 0, ss, acts) && |acts| == 5 + k
    ensures forall i :: 0 <= i <= k ==> ss[5 + i] == Stage(i)
    ensures k > 0 ==> acts[5] == Notify
  {
    hide Run, Next, Stage, Objects;
    if k == 0 {
      ss, acts := PoweredRun();
      Powered();
    } else {
      ss, acts := RunTo(k - 1);
      StageStep(k - 1);
      var n := |acts|;
      assert |ss| == n + 1 by { RunLength(ss, acts); }
      ss, acts := ExtendRun(Objects(), 0, ss, acts, if k == 1 then Notify else HalfTurn, Stage(k));
    }
  }

  lemma RunLength(ss: seq<System>, acts: seq<Action>)
    requires Run(Objects(), 0, ss, acts)
    ensures |ss| == |acts| + 1
  {
  }

  lemma Powered()
    ensures Stage(0) == At(Fresh(Role.Fpga, FRESH_VARS, BOTH), Fresh(Role.Mcu, FRESH_VARS, UP), 0xBE, FpgaOut)
  {
  }

  /** From power-on to the end: the FPGA is told to stop, both sides send com_shutdown, and the last
      two bytes, 0xBD from the FPGA and 0xBD from the MCU, are the sighups. Nothing moves after. */
  lemma StopsClean() returns (ss: seq<System>, acts: seq<Action>)
    ensures Run(Objects(), 0, ss, acts) && |acts| == 13 && |ss| == 14 && acts[5] == Notify
    ensures ss[7].phase == McuIn && ss[7].wire == 0xBC && ss[9].phase == FpgaIn && ss[9].wire == 0xBC
    ensures ss[11].phase == McuIn && ss[11].wire == 0xBD && ss[13].phase == FpgaIn && ss[13].wire == 0xBD
    ensures ValidSystem(ss[13]) && !Enabled(ss[13], HalfTurn)
    ensures ss[13].fpga.objects == ss[13].mcu.objects == Objects()
  {
    ss, acts := RunTo(8);
    assert ss[5 + 2] == Stage(2) && ss[5 + 4] == Stage(4) && ss[5 + 6] == Stage(6) && ss[5 + 8] == Stage(8);
    RunLength(ss, acts);
    RunInv(Objects(), 0, ss, acts, 13);
    hide Run, Objects, InStep, Closing;
  }

  lemma Tells(f: Endpoint, m: Endpoint)
    requires f == Fresh(Role.Fpga, FRESH_VARS, BOTH) && m == Fresh(Role.Mcu, FRESH_VARS, UP)
    ensures Next(At(f, m, 0xBE, FpgaOut), Notify, At(Side(Role.Fpga, TOLD), m, 0xBE, FpgaOut))
  {
    SidesAreValid(Role.Fpga, FRESH_VARS, BOTH);
    SidesAreValid(Role.Mcu, FRESH_VARS, UP);
    hide Valid, Objects, Choose;
  }
}
