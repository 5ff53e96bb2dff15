/** A run in which both clients write the same object, the write of one is cancelled, and its resolver
    aborts. */
module Canceled {
  import opened Results
  import opened Bits
  import opened Endpoint
  import opened Mirror
  import opened Witness
  import opened Resolver

  /** A step that touches no request, transfer or read lock of a side leaves its desk alone. */
  lemma NothingHappens(e: Endpoint, e': Endpoint, d: Desk, a: Action)
    requires Shaped(d) && !Stops(e, e', a) && !(a.LocalWrite? && a.role == e.role)
    requires forall j :: 0 <= j < NUM_IDS ==> AnswerTo(e, e', j, d.answers[j]) == d.answers[j]
    requires e'.rx.readLock == e.rx.readLock
    ensures After(e, e', d, a) == d
  {
    var served := Served(e, e', d);
    assert served.started == d.started && served.readAnswers == d.readAnswers;
    assert Answered(e, e', d).answers == d.answers;
  }

  // ----- Both clients write object 0 -----

  function Fpga0(): Endpoint {
    Fresh(Role.Fpga, FRESH_VARS, BOTH).(sync := Flags(true, false))
  }

  function Asking(): Endpoint {
    Fpga0().(vars := FRESH_VARS.(acknowledgeRequested := true), waiting := 0)
  }

  function Mcu0(): Endpoint {
    Fresh(Role.Mcu, FRESH_VARS, UP).(sync := Flags(true, false))
  }

  /** The MCU has granted the FPGA's request and dropped its own. */
  function Mcu1(): Endpoint {
    var e := Fresh(Role.Mcu, FRESH_VARS.(receivedRequest := true), Wires(true, true, true, false));
    e.(incoming := 0, rx := e.rx.(readLock := Flags(true, false)))
  }

  /** The write of object 0 is pending. */
  function Waiting(): Desk {
    Free().(pending := Free().pending[0 := true])
  }

  /** The write has been cancelled, and a read started. */
  function Lost(): Desk {
    Waiting().(answers := Free().answers[0 := Answer.Canceled], started := Free().started[0 := true])
  }

  lemma StatesAreValid()
    ensures Valid(Fpga0()) && Valid(Asking()) && Valid(Mcu0()) && Valid(Mcu1())
    ensures Valid(Fresh(Role.Fpga, FRESH_VARS, BOTH)) && Valid(Fresh(Role.Mcu, FRESH_VARS, UP))
    ensures Objects()[0 := [0, 0, 0]] == Objects()
  {
    StartIsFresh(Role.Fpga);
    StartIsFresh(Role.Mcu);
    Powers();
    assert Objects()[0 := Objects()[0]] == Objects();
    hide Flags, Objects;
  }

  lemma FpgaAsks()
    ensures Valid(Fpga0()) && Out(Fpga0()) == Ok((Asking(), 0x81)) && Choose(Fpga0()) == Request(0)
  {
    StatesAreValid();
    FlagsSet(true, false, true);
    hide Flags, Objects, ValidSizes, ValidSender, ValidReceiver;
    assert Choose(Fpga0()) == Request(0);
  }

  lemma McuGrants()
    ensures Valid(Mcu0()) && In(Mcu0(), 0x81) == Ok(Mcu1())
  {
    StatesAreValid();
    FlagsSet(true, false, false);
    FlagsSet(false, false, true);
    hide Flags, Objects, Valid;
  }

  /** A side that only changes its flags. */
  lemma Resting(e: Endpoint, e': Endpoint, d: Desk, a: Action)
    requires Shaped(d) && !Stops(e, e', a) && !(a.LocalWrite? && a.role == e.role)
    requires e'.tx.transfer == e.tx.transfer && e'.sync == e.sync && e'.rx.readLock == e.rx.readLock
    ensures After(e, e', d, a) == d
  {
    hide Stops;
    NothingHappens(e, e', d, a);
  }

  /** A client's write. */
  lemma Writes(e: Endpoint)
    requires e.tx.transfer == e.sync == Flags(false, false)
    ensures After(e, e.(sync := Flags(true, false)), Free(), LocalWrite(e.role, 0, [0, 0, 0])) == Waiting()
  {
    var e', a := e.(sync := Flags(true, false)), LocalWrite(e.role, 0, [0, 0, 0]);
    var served := Served(e, e', Free());
    assert served.started == Free().started && served.readAnswers == Free().readAnswers;
    assert Answered(e, e', Free()).answers == Free().answers;
  }

  lemma Loses()
    ensures After(Mcu0(), Mcu1(), Waiting(), HalfTurn) == Lost()
  {
    var served := Served(Mcu0(), Mcu1(), Waiting());
    assert served.started == Lost().started && served.readAnswers == Free().readAnswers;
    assert Answered(Mcu0(), Mcu1(), served).answers == Lost().answers;
  }

  /** A step of the link that leaves the desks as said. */
  lemma Follows(gs: seq<Guarded>, evs: seq<Event>, a: Action, s': System, fpga: Desk, mcu: Desk)
    returns (gs': seq<Guarded>, evs': seq<Event>)
    requires GuardedRun(Objects(), 0, gs, evs)
    requires var g := gs[|evs|];
             && Formed(g) && Proper(g, Act(a)) && Timely(g.link, a) && !Refused(g, Act(a))
             && Acted(g.link, a) == Ok(s')
             && fpga == After(g.link.fpga, s'.fpga, g.fpga, a) && mcu == After(g.link.mcu, s'.mcu, g.mcu, a)
    ensures GuardedRun(Objects(), 0, gs', evs') && |evs'| == |evs| + 1
    ensures gs'[|evs'|] == Guarded(s', fpga, mcu)
  {
    hide Acted, Timely, Proper, ValidSystem, Refused, After, Objects, Begin;
    gs', evs' := ExtendGuarded(Objects(), 0, gs, evs, Act(a), Guarded(s', fpga, mcu));
  }

  lemma PowersOnGuarded() returns (gs: seq<Guarded>, evs: seq<Event>)
    ensures GuardedRun(Objects(), 0, gs, evs) && |evs| == 5
    ensures gs[5] == Guarded(At(Fresh(Role.Fpga, FRESH_VARS, BOTH), Fresh(Role.Mcu, FRESH_VARS, UP), 0xBE, FpgaOut),
                             Free(), Free())
  {
    var f0, m0 := Start(Role.Fpga, Objects()), Start(Role.Mcu, Objects());
    var f1, m1 := Fresh(Role.Fpga, FRESH_VARS, UP), Fresh(Role.Mcu, FRESH_VARS, UP);
    var f2 := Fresh(Role.Fpga, FRESH_VARS, BOTH);
    BeginLink(Objects(), 0);
    StartIsFresh(Role.Fpga);
    StartIsFresh(Role.Mcu);
    FirstByte(Role.Fpga);
    FirstByte(Role.Mcu);
    FpgaHearsPowerOn();
    FlagsSet(false, false, false);
    hide In, Out, Flags, Objects, Start, ValidSizes, ValidSender, ValidReceiver, After, Choose, Begin;
    Resting(f0, f0, Free(), HalfTurn);
    Resting(m0, m0, Free(), HalfTurn);
    Resting(f0, f1, Free(), HalfTurn);
    Resting(m0, m1, Free(), HalfTurn);
    Resting(m1, m1, Free(), HalfTurn);
    Resting(f1, f1, Free(), HalfTurn);
    Resting(f1, f2, Free(), HalfTurn);
    gs, evs := [Begin(Objects(), 0)], [];
    gs, evs := Follows(gs, evs, HalfTurn, At(f0, m0, 0, FpgaOut), Free(), Free());
    gs, evs := Follows(gs, evs, HalfTurn, At(f1, m0, 0xBE, McuIn), Free(), Free());
    gs, evs := Follows(gs, evs, HalfTurn, At(f1, m0, 0xBE, McuOut), Free(), Free());
    gs, evs := Follows(gs, evs, HalfTurn, At(f1, m1, 0xBE, FpgaIn), Free(), Free());
    gs, evs := Follows(gs, evs, HalfTurn, At(f2, m1, 0xBE, FpgaOut), Free(), Free());
  }

  /** Both clients write object 0 once power-on is past. The FPGA's request goes first, the MCU's write
      is cancelled, and its resolver aborts. */
  lemma WriteIsCanceled() returns (gs: seq<Guarded>, evs: seq<Event>)
    ensures GuardedRun(Objects(), 0, gs, evs) && |evs| == 9
    ensures var g, ev := gs[9], Resolve(Role.Mcu, 0);
            && Formed(g) && Proper(g, ev)
            && Resolver.Next(g, ev) == Err(ObjectWriteCanceledByIncomingRead)
  {
    gs, evs := PowersOnGuarded();
    var f, m, zeros := Fresh(Role.Fpga, FRESH_VARS, BOTH), Fresh(Role.Mcu, FRESH_VARS, UP), [0, 0, 0];
    StatesAreValid();
    FpgaAsks();
    McuGrants();
    FlagsSet(false, false, true);
    hide In, Out, Choose, Flags, Objects, ValidSizes, ValidSender, ValidReceiver, After, GuardedRun;
    Writes(f);
    Writes(m);
    Resting(m, m, Free(), LocalWrite(Role.Fpga, 0, zeros));
    Resting(Fpga0(), Fpga0(), Waiting(), LocalWrite(Role.Mcu, 0, zeros));
    Resting(Fpga0(), Asking(), Waiting(), HalfTurn);
    Resting(Mcu0(), Mcu0(), Waiting(), HalfTurn);
    Resting(Asking(), Asking(), Waiting(), HalfTurn);
    Loses();
    SameCopy(Asking(), Mcu0(), Mcu1());
    gs, evs := Follows(gs, evs, LocalWrite(Role.Fpga, 0, zeros), At(Fpga0(), m, 0xBE, FpgaOut), Waiting(), Free());
    gs, evs := Follows(gs, evs, LocalWrite(Role.Mcu, 0, zeros), At(Fpga0(), Mcu0(), 0xBE, FpgaOut),
                       Waiting(), Waiting());
    gs, evs := Follows(gs, evs, HalfTurn, At(Asking(), Mcu0(), 0x81, McuIn), Waiting(), Waiting());
    gs, evs := Follows(gs, evs, HalfTurn, At(Asking(), Mcu1(), 0x81, McuOut), Waiting(), Lost());
  }
}
