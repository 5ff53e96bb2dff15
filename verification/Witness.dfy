/** Two small objects and the first turns of a link that carries them, computed byte by byte: the
    common beginning of the concrete runs in modules Untimely and Canceled. */
module Witness {
  import opened Results
  import opened Bits
  import opened Codec
  import opened Endpoint
  import opened Pair
  import opened Mirror
  import opened Safety
  import opened Progress

  /** The flags of objects 0 and 1; all others are down. */
  function Flags(zero: bool, one: bool): (s: seq<bool>)
    ensures |s| == NUM_IDS
    ensures forall j :: 0 <= j < |s| ==> (s[j] <==> (j == 0 && zero) || (j == 1 && one))
  {
    seq(NUM_IDS, j requires 0 <= j < NUM_IDS => (j == 0 && zero) || (j == 1 && one))
  }

  lemma FlagsSet(zero: bool, one: bool, up: bool)
    ensures Flags(zero, one)[0 := up] == Flags(up, one) && Flags(zero, one)[1 := up] == Flags(zero, up)
    ensures None(Flags(false, false)) && seq(NUM_IDS, _ => false) == Flags(false, false)
    ensures zero ==> Flags(zero, one)[0]
    ensures one ==> Flags(zero, one)[1]
  {
  }

  function Objects(): (o: seq<seq<byte>>)
    ensures ValidSizes(o) && |o| == 2 && o[0] == [0, 0, 0] && o[1] == [4, 0, 0]
  {
    [[0, 0, 0], [4, 0, 0]]
  }

  /** A side with nothing open and nothing in transfer. */
  function Fresh(role: Role, vars: ComVars, wires: Wires): Endpoint {
    var off := Flags(false, false);
    Endpoint(role, false, vars, wires, NUM_IDS, NUM_IDS,
             Sender(false, NUM_IDS, 0, 0, Encoder([0, 0, 0], 0), off), Receiver(false, NUM_IDS, 0, 0, EMPTY, off),
             off, Objects())
  }

  function At(fpga: Endpoint, mcu: Endpoint, wire: byte, phase: Phase): System {
    System(fpga, mcu, wire, phase, Objects(), Objects())
  }

  lemma GoStep(s: System, s': System, n: nat)
    requires ValidSystem(s) && Enabled(s, HalfTurn) && Step(s, HalfTurn) == Ok(s')
    ensures Go(s, n + 1) == Go(s', n)
  {
    hide ValidSystem, Step, Enabled;
  }

  lemma GoFails(s: System, error: Error)
    requires ValidSystem(s) && Enabled(s, HalfTurn) && Step(s, HalfTurn) == Err(error)
    ensures Go(s, 1) == Err(error)
  {
    hide ValidSystem, Step, Enabled;
  }

  lemma SameCopy(x: Endpoint, y: Endpoint, y': Endpoint)
    requires Valid(x) && Valid(y) && Valid(y') && x.objects == Objects()
    ensures CopyOnGrant(x, y, y', Objects()) == Objects()
  {
    hide Valid, Objects;
    var j := y'.incoming;
    assert j < 2 ==> Objects()[j := Objects()[j]] == Objects();
  }

  /** One half turn, from what the side computes. */
  lemma ReadsAt(f: Endpoint, m: Endpoint, b: byte, e: Endpoint, n: nat)
    requires Valid(f) && Valid(m) && Valid(e) && f.objects == m.objects == e.objects == Objects()
    ensures In(f, b) == Ok(e) && !f.vars.sentSighup ==> Go(At(f, m, b, FpgaIn), n + 1) == Go(At(e, m, b, FpgaOut), n)
    ensures In(m, b) == Ok(e) ==> Go(At(f, m, b, McuIn), n + 1) == Go(At(f, e, b, McuOut), n)
  {
    hide In, Valid, Objects, Go;
    if In(f, b) == Ok(e) && !f.vars.sentSighup {
      SameCopy(m, f, e);
      GoStep(At(f, m, b, FpgaIn), At(e, m, b, FpgaOut), n);
    }
    if In(m, b) == Ok(e) {
      SameCopy(f, m, e);
      GoStep(At(f, m, b, McuIn), At(f, e, b, McuOut), n);
    }
  }

  lemma WritesAt(f: Endpoint, m: Endpoint, w: byte, e: Endpoint, b: byte, n: nat)
    requires Valid(f) && Valid(m) && f.objects == m.objects == Objects()
    ensures Out(f) == Ok((e, b)) ==> Go(At(f, m, w, FpgaOut), n + 1) == Go(At(e, m, b, McuIn), n)
    ensures Out(m) == Ok((e, b)) ==> Go(At(f, m, w, McuOut), n + 1) == Go(At(f, e, b, FpgaIn), n)
  {
    hide Out, Valid, Objects, Go;
    if Out(f) == Ok((e, b)) {
      GoStep(At(f, m, w, FpgaOut), At(e, m, b, McuIn), n);
    }
    if Out(m) == Ok((e, b)) {
      GoStep(At(f, m, w, McuOut), At(f, e, b, FpgaIn), n);
    }
  }

  /** IN, when the byte is a request for a free object and nothing else is due. */
  lemma GrantsRequest(e: Endpoint, b: byte, j: nat)
    requires Valid(e) && !e.firstRun && !e.vars.receivedSighup && !e.vars.acknowledgeRequested
    requires j < NUM_IDS && Low6(b) == j + LOWER_STATES && RequestBit(b) && !AcknowledgeBit(b)
    requires j != e.waiting && !e.rx.readLock[j] && !e.tx.transfer[j]
    ensures In(e, b) == Ok(e.(
              vars := e.vars.(receivedRequest := true, receivedAcknowledge := false, receivedIdle := false),
              wires := Wires(e.wires.requestOut, true, true, false),
              incoming := j, sync := e.sync[j := false], rx := e.rx.(readLock := e.rx.readLock[j := true])))
  {
    assert Valid(ReceiveSignals(e, b));
    hide Valid, Low6, RequestBit, AcknowledgeBit;
    RequestHook(ReceiveSignals(e, b), b, j);
    hide ReadHook;
  }

  // ----- Power-on -----

  const UP := Wires(true, false, false, false)
  const BOTH := Wires(true, false, true, false)

  lemma StartIsFresh(role: Role)
    ensures Start(role, Objects()) ==
              Fresh(role, FRESH_VARS, Wires(false, false, false, false)).(firstRun := true)
    ensures Valid(Start(role, Objects())) && Valid(Fresh(role, FRESH_VARS, UP)) && Valid(Fresh(role, FRESH_VARS, BOTH))
  {
    FlagsSet(false, false, false);
    Powers();
    hide Flags, Objects;
  }

  lemma FirstByte(role: Role)
    ensures Valid(Start(role, Objects()))
    ensures In(Start(role, Objects()), 0xBE) == Ok(Start(role, Objects()))
    ensures In(Start(role, Objects()), 0) == Ok(Start(role, Objects()))
    ensures Out(Start(role, Objects())) == Ok((Fresh(role, FRESH_VARS, UP), 0xBE))
  {
    StartIsFresh(role);
    hide Flags, Objects, Start, Valid;
  }

  lemma FpgaHearsPowerOn()
    ensures Valid(Fresh(Fpga, FRESH_VARS, UP))
    ensures In(Fresh(Fpga, FRESH_VARS, UP), 0xBE) == Ok(Fresh(Fpga, FRESH_VARS, BOTH))
  {
    StartIsFresh(Fpga);
    hide Flags, Objects, Start, Valid;
  }

  /** After five half turns both power-ons are past. */
  lemma PowersOn()
    ensures Go(Init(Objects(), 0), 5)
            == Ok(At(Fresh(Fpga, FRESH_VARS, BOTH), Fresh(Mcu, FRESH_VARS, UP), 0xBE, FpgaOut))
  {
    hide In, Out, Valid, Objects, Flags, Go, Start, Fresh;
    var f0, m0 := Start(Fpga, Objects()), Start(Mcu, Objects());
    var f1, m1, f2 := Fresh(Fpga, FRESH_VARS, UP), Fresh(Mcu, FRESH_VARS, UP), Fresh(Fpga, FRESH_VARS, BOTH);
    StartIsFresh(Fpga);
    StartIsFresh(Mcu);
    FirstByte(Fpga);
    FirstByte(Mcu);
    FpgaHearsPowerOn();
    SideObjects(Fpga);
    SideObjects(Mcu);
    ReadsAt(f0, m0, 0, f0, 4);
    WritesAt(f0, m0, 0, f1, 0xBE, 3);
    ReadsAt(f1, m0, 0xBE, m0, 2);
    WritesAt(f1, m0, 0xBE, m1, 0xBE, 1);
    ReadsAt(f1, m1, 0xBE, f2, 0);
    GoNowhere(At(f2, m1, 0xBE, FpgaOut));
  }

  lemma SideObjects(role: Role)
    ensures Start(role, Objects()).objects == Objects()
    ensures forall vars, wires :: Fresh(role, vars, wires).objects == Objects()
    ensures !Start(role, Objects()).vars.sentSighup
    ensures !Fresh(role, FRESH_VARS, UP).vars.sentSighup
  {
  }

  // ----- Runs -----

  /** Half turns of a link that nobody has been told to stop, as part of a run. */
  lemma {:induction false} GoRun(objects: seq<seq<byte>>, wire: byte, ss: seq<System>, acts: seq<Action>, n: nat)
    returns (ss': seq<System>, acts': seq<Action>)
    requires Run(objects, wire, ss, acts) && Unstopped(ss[|acts|])
    ensures Run(objects, wire, ss', acts') && |acts'| == |acts| + n && Unstopped(ss'[|acts'|])
    ensures Go(ss[|acts|], n) == Ok(ss'[|acts'|])
    decreases n
  {
    hide Inv, Step, Timely, Init, ValidSystem, Unstopped, Go;
    var s := ss[|acts|];
    ss', acts' := ss, acts;
    GoNowhere(s);
    if n > 0 {
      RunInv(objects, wire, ss, acts, |acts|);
      InvIsValid(s);
      assert Enabled(s, HalfTurn) by { UnstoppedIsEnabled(s); }
      UnstoppedTurn(s);
      UnstoppedIsTimely(s);
      var s' := Step(s, HalfTurn).value;
      ss', acts' := ExtendRun(objects, wire, ss, acts, HalfTurn, s');
      GoStep(s, s', n - 1);
      ss', acts' := GoRun(objects, wire, ss', acts', n - 1);
    }
  }

  lemma UnstoppedIsEnabled(s: System)
    requires Inv(s) && ValidSystem(s) && Unstopped(s)
    ensures Enabled(s, HalfTurn)
  {
    hide InStep, ValidSystem;
  }

  /** The run that ends where both power-ons are past. */
  lemma PoweredRun() returns (ss: seq<System>, acts: seq<Action>)
    ensures Run(Objects(), 0, ss, acts) && |acts| == 5
    ensures ss[5] == At(Fresh(Fpga, FRESH_VARS, BOTH), Fresh(Mcu, FRESH_VARS, UP), 0xBE, FpgaOut)
    ensures Unstopped(ss[5])
  {
    hide Go, Objects, Fresh;
    ss, acts := GoRun(Objects(), 0, [Init(Objects(), 0)], [], 5);
    PowersOn();
  }
}
