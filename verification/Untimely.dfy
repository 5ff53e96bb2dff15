/** A run in which com_shutdown leaves too early, and what comes of it. The FPGA's client writes both
    objects; object 1 is accepted and waits while object 0 is sent; then the FPGA is told to stop. */
module Untimely {
  import opened Results
  import opened Bits
  import opened Codec
  import opened Endpoint
  import opened Mirror
  import opened Safety
  import opened Progress
  import opened Witness

  // ----- The states of the two sides -----

  const ASKED := FRESH_VARS.(receivedRequest := true)
  const GRANTED := FRESH_VARS.(receivedRequest := true, receivedAcknowledge := true)
  const DATA := Wires(false, false, true, false)

  function Fpga(vars: ComVars, wires: Wires, waiting: nat, tx: Sender, sync: seq<bool>): Endpoint {
    Fresh(Role.Fpga, vars, wires).(waiting := waiting, tx := tx, sync := sync)
  }

  function Mcu(vars: ComVars, wires: Wires, incoming: nat, rx: Receiver): Endpoint {
    Fresh(Role.Mcu, vars, wires).(incoming := incoming, rx := rx)
  }

  /** Nothing open yet. */
  function Closed(transfer: seq<bool>): Sender {
    Sender(false, NUM_IDS, 0, 0, Encoder([0, 0, 0], 0), transfer)
  }

  /** Object 0 open, k sextets sent. */
  function Open(k: nat): Sender {
    Sender(true, 0, k, k, Encoder([0, 0, 0], k), Flags(true, true))
  }

  /** Object 0 sent. */
  function Done(): Sender {
    Sender(false, 0, 0, 0, Encoder([0, 0, 0], 0), Flags(false, true))
  }

  function Locked(readLock: seq<bool>): Receiver {
    Receiver(false, NUM_IDS, 0, 0, EMPTY, readLock)
  }

  function Reading(k: nat): Receiver {
    Receiver(true, 0, 0, k, Decoder(0, k), Flags(true, true))
  }

  function Received(): Receiver {
    Receiver(false, 0, 0, 0, EMPTY, Flags(false, true))
  }

  lemma SidesAreValid(vars: ComVars, wires: Wires, k: nat, z: bool, o: bool, y: bool, p: bool)
    requires 0 < k <= 3
    ensures Valid(Fpga(vars, wires, NUM_IDS, Closed(Flags(z, o)), Flags(y, p)))
    ensures Valid(Fpga(vars, wires, 0, Closed(Flags(z, o)), Flags(y, p)))
    ensures Valid(Fpga(vars, wires, 1, Closed(Flags(z, o)), Flags(y, p)))
    ensures Valid(Fpga(vars, wires, NUM_IDS, Open(k), Flags(false, false)))
    ensures Valid(Fpga(vars, wires, NUM_IDS, Done(), Flags(false, false)))
    ensures Valid(Mcu(vars, wires, NUM_IDS, Locked(Flags(z, o)))) && Valid(Mcu(vars, wires, 0, Locked(Flags(z, o))))
    ensures Valid(Mcu(vars, wires, 1, Locked(Flags(z, o))))
    ensures Valid(Mcu(vars, wires, NUM_IDS, Reading(k))) && Valid(Mcu(vars, wires, NUM_IDS, Received()))
  {
    Powers();
    hide Flags;
  }

  // ----- The two requests -----

  const ANSWERED := Wires(false, false, true, true)
  const GRANTING := Wires(true, true, true, false)

  function Fpga0(): Endpoint {
    Fpga(FRESH_VARS, BOTH, NUM_IDS, Closed(Flags(false, false)), Flags(true, true))
  }

  function Asking0(): Endpoint {
    Fpga(FRESH_VARS.(acknowledgeRequested := true), BOTH, 0, Closed(Flags(false, false)), Flags(true, true))
  }

  function Fpga1(): Endpoint {
    Fpga(GRANTED, ANSWERED, 0, Closed(Flags(true, false)), Flags(false, true))
  }

  function Asking1(): Endpoint {
    Fpga(GRANTED.(acknowledgeRequested := true), Wires(true, false, true, true), 1, Closed(Flags(true, false)),
         Flags(false, true))
  }

  function Fpga2(): Endpoint {
    Fpga(GRANTED, ANSWERED, 1, Closed(Flags(true, true)), Flags(false, false))
  }

  function Mcu0(): Endpoint {
    Mcu(FRESH_VARS, UP, NUM_IDS, Locked(Flags(false, false)))
  }

  function Mcu1(): Endpoint {
    Mcu(ASKED, GRANTING, 0, Locked(Flags(true, false)))
  }

  function Mcu2(): Endpoint {
    Mcu(ASKED, GRANTING, 1, Locked(Flags(true, true)))
  }

  /** What the bytes of this run carry. */
  lemma BytesAre()
    ensures Low6(0x81) == 1 && RequestBit(0x81) && !AcknowledgeBit(0x81)
    ensures Low6(0x82) == 2 && RequestBit(0x82) && !AcknowledgeBit(0x82)
    ensures Low6(0xFB) == IDLE && RequestBit(0xFB) && AcknowledgeBit(0xFB)
    ensures Low6(0xBB) == IDLE && RequestBit(0xBB) && !AcknowledgeBit(0xBB)
    ensures Low6(0xBC) == SHUTDOWN && RequestBit(0xBC) && !AcknowledgeBit(0xBC)
    ensures !RequestBit(0) && !AcknowledgeBit(0)
  {
  }

  lemma Asks0()
    ensures Valid(Fpga0()) && Out(Fpga0()) == Ok((Asking0(), 0x81))
  {
    SidesAreValid(FRESH_VARS, BOTH, 1, false, false, true, true);
    FlagsSet(true, true, true);
    hide Flags, Objects, ValidSizes, ValidSender, ValidReceiver, WritesPending, ReadsPending;
    assert Choose(Fpga0()) == Request(0);
  }

  lemma Asks1()
    ensures Valid(Fpga1()) && Out(Fpga1()) == Ok((Asking1(), 0x82))
  {
    SidesAreValid(GRANTED, ANSWERED, 1, true, false, false, true);
    FlagsSet(false, true, true);
    hide Flags, Objects, ValidSizes, ValidSender, ValidReceiver, WritesPending, ReadsPending;
    assert Choose(Fpga1()) == Request(1);
  }

  lemma Hears0()
    ensures Valid(Asking0()) && In(Asking0(), 0xFB) == Ok(Fpga1())
  {
    SidesAreValid(FRESH_VARS.(acknowledgeRequested := true), BOTH, 1, false, false, true, true);
    FlagsSet(false, false, true);
    FlagsSet(true, true, false);
    BytesAre();
    hide Flags, Objects, Valid, Low6, RequestBit, AcknowledgeBit;
  }

  lemma Hears1()
    ensures Valid(Asking1()) && In(Asking1(), 0xFB) == Ok(Fpga2())
  {
    SidesAreValid(GRANTED.(acknowledgeRequested := true), Wires(true, false, true, true), 1, true, false, false, true);
    FlagsSet(true, false, true);
    FlagsSet(false, true, false);
    BytesAre();
    hide Flags, Objects, Valid, Low6, RequestBit, AcknowledgeBit;
  }

  lemma Grants0()
    ensures Valid(Mcu0()) && In(Mcu0(), 0x81) == Ok(Mcu1())
  {
    SidesAreValid(FRESH_VARS, UP, 1, false, false, false, false);
    FlagsSet(false, false, true);
    FlagsSet(false, false, false);
    BytesAre();
    hide Flags, Objects, Valid, In, Low6, RequestBit, AcknowledgeBit;
    GrantsRequest(Mcu0(), 0x81, 0);
  }

  lemma Grants1()
    ensures Valid(Mcu1()) && In(Mcu1(), 0x82) == Ok(Mcu2())
  {
    SidesAreValid(ASKED, GRANTING, 1, true, false, false, false);
    FlagsSet(true, false, true);
    FlagsSet(false, false, false);
    BytesAre();
    hide Flags, Objects, Valid, In, Low6, RequestBit, AcknowledgeBit;
    GrantsRequest(Mcu1(), 0x82, 1);
  }

  /** The MCU has nothing to send and answers with idle. */
  lemma Idles(e: Endpoint)
    requires Valid(e) && !e.firstRun && !e.tx.lock && e.wires.requestOut && e.waiting == NUM_IDS
    requires None(e.sync) && None(e.tx.transfer)
    requires !e.vars.descendantsNotified && !e.vars.receivedSighup && !e.vars.sentSighup && e.role.Mcu?
    ensures Out(e) == Ok((e, if e.wires.ackOut then 0xFB else 0xBB))
  {
    hide ValidReceiver;
  }

  // ----- The data -----

  function Sending(k: nat): Endpoint {
    Fpga(ASKED, DATA, NUM_IDS, Open(k), Flags(false, false))
  }

  function Sent0(): Endpoint {
    Fpga(ASKED, DATA, NUM_IDS, Done(), Flags(false, false))
  }

  function Opening1(): Endpoint {
    Fpga(GRANTED, ANSWERED, NUM_IDS, Open(1), Flags(false, false))
  }

  function Taking(k: nat): Endpoint {
    Mcu(FRESH_VARS, UP, NUM_IDS, Reading(k))
  }

  function Taken0(): Endpoint {
    Mcu(FRESH_VARS, UP, NUM_IDS, Received())
  }

  /** Zero bytes make zero sextets. */
  lemma ZeroSextet(k: nat)
    requires k <= 3
    ensures WriteByte(Encoder([0, 0, 0], k), if k < 3 then 0 else NO_DATA, false, false) ==
              (Encoder([0, 0, 0], if k < 3 then k + 1 else 0), 0)
    ensures Decoder(0, k).Valid() && ReadByte(Decoder(0, k), 0) == Decoder(0, if k < 3 then k + 1 else 0)
  {
    Powers();
    ZeroByte(k);
    hide Shr, Shl;
    SextetPlace(0, k);
  }

  lemma ZeroByte(k: nat)
    requires k <= 3
    ensures WriteByte(Encoder([0, 0, 0], k), if k < 3 then 0 else NO_DATA, false, false) ==
              (Encoder([0, 0, 0], if k < 3 then k + 1 else 0), 0)
  {
    hide *;
    ZeroOut(k);
    ZeroKept(k);
  }

  lemma ZeroOut(k: nat)
    requires k <= 3
    ensures WriteByte(Encoder([0, 0, 0], k), if k < 3 then 0 else NO_DATA, false, false).1 == 0
  {
    hide WriteByte;
    WriteOutput(Encoder([0, 0, 0], k), if k < 3 then 0 else NO_DATA, false, false);
  }

  lemma ZeroKept(k: nat)
    requires k <= 3
    ensures WriteByte(Encoder([0, 0, 0], k), if k < 3 then 0 else NO_DATA, false, false).0 ==
              Encoder([0, 0, 0], if k < 3 then k + 1 else 0)
  {
    hide WriteByte;
    var zeros: seq<byte> := [0, 0, 0];
    WriteKeeps(Encoder(zeros, k), if k < 3 then 0 else NO_DATA, false, false);
    assert k < 3 ==> zeros[k := 0] == zeros;
  }

  lemma Opens()
    ensures Valid(Fpga2()) && Out(Fpga2()) == Ok((Opening1(), 0))
  {
    SidesAreValid(GRANTED, ANSWERED, 1, true, true, false, false);
    ZeroSextet(0);
    FlagsSet(true, true, true);
    hide Flags, Objects, WriteByte, ValidSizes, ValidReceiver;
    assert FirstTransfer(Fpga2()) == 0;
    assert Choose(Fpga2()) == Transfer(0);
  }

  lemma OpenHears()
    ensures Valid(Opening1()) && In(Opening1(), 0xBB) == Ok(Sending(1))
  {
    SidesAreValid(GRANTED, ANSWERED, 1, true, true, false, false);
    BytesAre();
    hide Flags, Objects, Valid, Low6, RequestBit, AcknowledgeBit;
  }

  lemma Sends(k: nat)
    requires 0 < k <= 3
    ensures Valid(Sending(k)) && Out(Sending(k)) == Ok((if k < 3 then Sending(k + 1) else Sent0(), 0))
  {
    SidesAreValid(ASKED, DATA, k, true, true, false, false);
    ZeroSextet(k);
    FlagsSet(true, true, false);
    hide Flags, Objects, WriteByte, ValidSizes, ValidReceiver;
    assert Choose(Sending(k)) == Data;
  }

  lemma FpgaHearsIdle(e: Endpoint)
    requires e == Sent0() || exists k :: 0 < k <= 3 && e == Sending(k)
    ensures Valid(e) && In(e, 0xBB) == Ok(e)
  {
    if k :| 0 < k <= 3 && e == Sending(k) {
      SidesAreValid(ASKED, DATA, k, true, true, false, false);
    } else {
      SidesAreValid(ASKED, DATA, 1, true, true, false, false);
    }
    hide Flags, Objects, Valid;
  }

  lemma Starts()
    ensures Valid(Mcu2()) && In(Mcu2(), 0) == Ok(Taking(1))
  {
    SidesAreValid(ASKED, GRANTING, 1, true, true, false, false);
    ZeroSextet(0);
    FlagsSet(true, true, true);
    hide Flags, Objects, ReadByte, ValidSizes, ValidSender;
    assert FirstReadLock(Mcu2().rx, 2) == 0;
  }

  /** Storing zeros over zeros. */
  lemma StoresZeros()
    ensures Store(Objects()[0], 0, Digits(3, 0)) == [0, 0, 0]
    ensures Objects()[0 := [0, 0, 0]] == Objects()
  {
    assert Digits(1, 0) == [0] && Digits(2, 0) == [0, 0] && Digits(3, 0) == [0, 0, 0];
    assert Objects()[0 := Objects()[0]] == Objects();
  }

  lemma TakesZero(k: nat)
    requires 0 < k <= 3
    ensures ValidReceiver(Reading(k), Objects())
    ensures TakeByte(Reading(k), Objects(), 0) == (if k < 3 then Reading(k + 1) else Received(), Objects())
  {
    SidesAreValid(FRESH_VARS, UP, k, true, true, false, false);
    ZeroSextet(k);
    FlagsSet(true, true, false);
    StoresZeros();
    hide Flags, Objects, ReadByte, Store, Digits, ValidSizes;
  }

  lemma Takes(k: nat)
    requires 0 < k <= 3
    ensures Valid(Taking(k)) && In(Taking(k), 0) == Ok(if k < 3 then Taking(k + 1) else Taken0())
  {
    SidesAreValid(FRESH_VARS, UP, k, true, true, false, false);
    TakesZero(k);
    hide Flags, Objects, TakeByte, Valid;
  }

  // ----- Twenty-four half turns -----

  /** Four half turns, from what the two sides compute. */
  lemma Round(f: Endpoint, m: Endpoint, w: byte, f1: Endpoint, b: byte, m1: Endpoint, c: byte, f2: Endpoint, n: nat)
    requires Valid(f) && Valid(m) && Out(f) == Ok((f1, b)) && In(m, b) == Ok(m1)
    requires Valid(f1) && Valid(m1) && Out(m1) == Ok((m1, c)) && In(f1, c) == Ok(f2)
    requires f.objects == m.objects == f1.objects == m1.objects == f2.objects == Objects() && Valid(f2)
    requires !f1.vars.sentSighup
    ensures Go(At(f, m, w, FpgaOut), n + 4) == Go(At(f2, m1, c, FpgaOut), n)
  {
    hide In, Out, Valid, Objects, Go;
    WritesAt(f, m, w, f1, b, n + 3);
    ReadsAt(f1, m, b, m1, n + 2);
    WritesAt(f1, m1, b, m1, c, n + 1);
    ReadsAt(f1, m1, c, f2, n);
  }

  lemma Requests(n: nat)
    ensures Go(At(Fpga0(), Mcu0(), 0xBE, FpgaOut), n + 8) == Go(At(Fpga2(), Mcu2(), 0xFB, FpgaOut), n)
  {
    Asks0();
    Asks1();
    Hears0();
    Hears1();
    Grants0();
    Grants1();
    FlagsSet(false, false, false);
    hide In, Out, Valid, Go, Flags, Objects;
    Idles(Mcu1());
    Idles(Mcu2());
    Round(Fpga0(), Mcu0(), 0xBE, Asking0(), 0x81, Mcu1(), 0xFB, Fpga1(), n + 4);
    Round(Fpga1(), Mcu1(), 0xFB, Asking1(), 0x82, Mcu2(), 0xFB, Fpga2(), n);
  }

  lemma FirstData(n: nat)
    ensures Go(At(Fpga2(), Mcu2(), 0xFB, FpgaOut), n + 4) == Go(At(Sending(1), Taking(1), 0xBB, FpgaOut), n)
  {
    Opens();
    OpenHears();
    Starts();
    FlagsSet(false, false, false);
    hide In, Out, Valid, Go, Flags, Objects;
    Idles(Taking(1));
    Round(Fpga2(), Mcu2(), 0xFB, Opening1(), 0, Taking(1), 0xBB, Sending(1), n);
  }

  lemma MoreData(k: nat, n: nat)
    requires 0 < k < 3
    ensures Go(At(Sending(k), Taking(k), 0xBB, FpgaOut), n + 4)
            == Go(At(Sending(k + 1), Taking(k + 1), 0xBB, FpgaOut), n)
  {
    Sends(k);
    Takes(k);
    FpgaHearsIdle(Sending(k + 1));
    FlagsSet(false, false, false);
    SidesAreValid(FRESH_VARS, UP, k + 1, true, true, false, false);
    hide In, Out, Valid, Go, Flags, Objects, At, Open, Reading;
    Idles(Taking(k + 1));
    Round(Sending(k), Taking(k), 0xBB, Sending(k + 1), 0, Taking(k + 1), 0xBB, Sending(k + 1), n);
  }

  lemma LastData(n: nat)
    ensures Go(At(Sending(3), Taking(3), 0xBB, FpgaOut), n + 4) == Go(At(Sent0(), Taken0(), 0xBB, FpgaOut), n)
  {
    Sends(3);
    Takes(3);
    FpgaHearsIdle(Sent0());
    FlagsSet(false, false, false);
    SidesAreValid(FRESH_VARS, UP, 3, true, true, false, false);
    hide In, Out, Valid, Go, Flags, Objects;
    Idles(Taken0());
    Round(Sending(3), Taking(3), 0xBB, Sent0(), 0, Taken0(), 0xBB, Sent0(), n);
  }

  lemma SendsObject0()
    ensures Go(At(Fpga0(), Mcu0(), 0xBE, FpgaOut), 24) == Ok(At(Sent0(), Taken0(), 0xBB, FpgaOut))
  {
    hide Go, At, Fpga0, Mcu0, Fpga2, Mcu2, Sending, Taking, Sent0, Taken0;
    Requests(16);
    FirstData(12);
    MoreData(1, 8);
    MoreData(2, 4);
    LastData(0);
    GoNowhere(At(Sent0(), Taken0(), 0xBB, FpgaOut));
  }

  // ----- The shutdown that is too early -----

  const CLOSING := ASKED.(descendantsNotified := true)

  function Told(vars: ComVars): Endpoint {
    Fpga(vars, DATA, NUM_IDS, Done(), Flags(false, false))
  }

  /** The FPGA has just been told to stop; object 0 has been sent, object 1 accepted. */
  function Late(): System {
    At(Told(CLOSING), Taken0(), 0xBB, FpgaOut)
  }

  lemma LateIsUntimely()
    ensures Valid(Told(CLOSING)) && Choose(Told(CLOSING)).Shutdown? && !None(Told(CLOSING).tx.transfer)
  {
    SidesAreValid(CLOSING, DATA, 1, true, true, false, false);
    FlagsSet(false, true, true);
    FlagsSet(false, false, true);
    hide Flags, Objects, ValidSizes, ValidSender, ValidReceiver;
  }

  /** The FPGA after its com_shutdown, 0xBC, before and after it has heard the MCU's. */
  function Closed1(vars: ComVars): Endpoint {
    Fpga(vars, BOTH, NUM_IDS, Done(), Flags(false, false))
  }

  lemma FpgaShutsDown()
    ensures Valid(Told(CLOSING)) && Out(Told(CLOSING)) == Ok((Closed1(CLOSING.(sentComShutdown := true)), 0xBC))
  {
    LateIsUntimely();
    hide Flags, Objects, Valid, Choose;
  }

  /** The MCU after it has heard of it, and after its own. */
  function Mcu3(vars: ComVars): Endpoint {
    Mcu(vars, BOTH, NUM_IDS, Received())
  }

  lemma McuHears()
    ensures Valid(Taken0()) && In(Taken0(), 0xBC) == Ok(Mcu3(CLOSING.(receivedComShutdown := true)))
  {
    SidesAreValid(FRESH_VARS, UP, 1, true, true, false, false);
    BytesAre();
    hide Flags, Objects, Valid, Low6, RequestBit, AcknowledgeBit;
  }

  lemma McuShutsDown()
    ensures var vars := CLOSING.(receivedComShutdown := true);
            && Valid(Mcu3(vars))
            && Out(Mcu3(vars)) == Ok((Mcu3(vars.(sentComShutdown := true)), 0xBC))
  {
    SidesAreValid(CLOSING.(receivedComShutdown := true), BOTH, 1, true, true, false, false);
    FlagsSet(false, false, true);
    hide Flags, Objects, ValidSizes, ValidSender, ValidReceiver;
  }

  const CLOSED := CLOSING.(receivedComShutdown := true, sentComShutdown := true)

  lemma FpgaHears()
    ensures var vars := CLOSING.(sentComShutdown := true);
            Valid(Closed1(vars)) && In(Closed1(vars), 0xBC) == Ok(Closed1(CLOSED))
  {
    SidesAreValid(CLOSING.(sentComShutdown := true), BOTH, 1, true, true, false, false);
    BytesAre();
    hide Flags, Objects, Valid, Low6, RequestBit, AcknowledgeBit;
  }

  /** The FPGA after the first data byte of object 1, 0x81: sextet 1 under a raised bit 7. */
  function Misframed(): Endpoint {
    Fpga(CLOSED, BOTH, NUM_IDS, Sender(true, 1, 1, 1, Encoder([4, 0, 0], 1), Flags(false, true)), Flags(false, false))
  }

  lemma FirstSextet()
    ensures WriteByte(Encoder([0, 0, 0], 0), 4, true, false) == (Encoder([4, 0, 0], 1), 0x81)
  {
    hide Shr, Shl;
    WriteOutput(Encoder([0, 0, 0], 0), 4, true, false);
    assert [0, 0, 0][0 := 4] == [4, 0, 0];
  }

  lemma FpgaSends()
    ensures Valid(Closed1(CLOSED)) && Out(Closed1(CLOSED)) == Ok((Misframed(), 0x81))
  {
    SidesAreValid(CLOSED, BOTH, 1, true, true, false, false);
    FlagsSet(false, true, true);
    FlagsSet(false, false, true);
    FirstSextet();
    hide Flags, Objects, WriteByte, ValidSizes, ValidReceiver;
    assert FirstTransfer(Closed1(CLOSED)) == 1;
    assert Choose(Closed1(CLOSED)) == Transfer(1);
  }

  /** The MCU takes it for a request for object 0 and grants it. */
  function Mcu4(): Endpoint {
    Mcu(CLOSED, GRANTING, 0, Received().(readLock := Flags(true, true)))
  }

  lemma GrantIsValid()
    ensures Valid(Mcu4())
  {
    Powers();
    hide Flags;
  }

  lemma McuGrants()
    ensures Valid(Mcu3(CLOSED)) && In(Mcu3(CLOSED), 0x81) == Ok(Mcu4())
  {
    SidesAreValid(CLOSED, BOTH, 1, true, true, false, false);
    FlagsSet(false, true, true);
    FlagsSet(false, false, false);
    BytesAre();
    hide Flags, Objects, Valid, In, Low6, RequestBit, AcknowledgeBit;
    GrantsRequest(Mcu3(CLOSED), 0x81, 0);
  }

  lemma McuAnswers()
    ensures Valid(Mcu4()) && Out(Mcu4()) == Ok((Mcu4(), 0xFB))
  {
    GrantIsValid();
    FlagsSet(false, false, false);
    hide Flags, Objects, ValidSizes, ValidReceiver;
  }

  lemma FpgaAborts()
    ensures Valid(Misframed()) && In(Misframed(), 0xFB) == Err(AcknowledgeReceivedWithoutAnyRequest)
  {
    FpgaSends();
    hide Flags, Objects, Out, ValidSizes, ValidReceiver;
  }

  lemma Aborts()
    ensures Go(Late(), 8) == Err(AcknowledgeReceivedWithoutAnyRequest)
  {
    FpgaShutsDown();
    McuHears();
    McuShutsDown();
    FpgaHears();
    FpgaSends();
    McuGrants();
    McuAnswers();
    FpgaAborts();
    hide In, Out, Valid, Objects, Flags, Go;
    var f0, f1, f2, f3 := Told(CLOSING), Closed1(CLOSING.(sentComShutdown := true)), Closed1(CLOSED), Misframed();
    var m0, m1, m2, m3 := Taken0(), Mcu3(CLOSING.(receivedComShutdown := true)), Mcu3(CLOSED), Mcu4();
    WritesAt(f0, m0, 0xBB, f1, 0xBC, 7);
    ReadsAt(f1, m0, 0xBC, m1, 6);
    WritesAt(f1, m1, 0xBC, m2, 0xBC, 5);
    ReadsAt(f1, m2, 0xBC, f2, 4);
    WritesAt(f2, m2, 0xBC, f3, 0x81, 3);
    ReadsAt(f3, m2, 0x81, m3, 2);
    WritesAt(f3, m3, 0x81, m3, 0xFB, 1);
    GoFails(At(f3, m3, 0xFB, FpgaIn), AcknowledgeReceivedWithoutAnyRequest);
  }

  // ----- The run -----

  /** The FPGA's client writes both objects once power-on is past. */
  lemma WritesBoth() returns (ss: seq<System>, acts: seq<Action>)
    ensures Run(Objects(), 0, ss, acts) && |acts| == 7
    ensures ss[7] == At(Fpga0(), Mcu0(), 0xBE, FpgaOut) && Unstopped(ss[7])
  {
    ss, acts := PoweredRun();
    var f, m := Fresh(Role.Fpga, FRESH_VARS, BOTH), Fresh(Role.Mcu, FRESH_VARS, UP);
    var f1 := f.(sync := Flags(true, false));
    FlagsSet(false, false, true);
    FlagsSet(true, false, true);
    SidesAreValid(FRESH_VARS, BOTH, 1, false, false, true, false);
    SidesAreValid(FRESH_VARS, UP, 1, false, false, true, false);
    RewritesObjects();
    hide Flags, Objects, ValidSizes, ValidSender, ValidReceiver;
    ss, acts := ExtendRun(Objects(), 0, ss, acts, LocalWrite(Role.Fpga, 0, [0, 0, 0]), At(f1, m, 0xBE, FpgaOut));
    ss, acts := ExtendRun(Objects(), 0, ss, acts, LocalWrite(Role.Fpga, 1, [4, 0, 0]),
                          At(Fpga0(), Mcu0(), 0xBE, FpgaOut));
  }

  lemma RewritesObjects()
    ensures Objects()[0 := [0, 0, 0]] == Objects()[1 := [4, 0, 0]] == Objects()
  {
  }

  /** Without the missing guard the link can abort. There is a run from the start state to a state in
      which com_shutdown is about to leave while object 1 waits. Its first byte is then taken for a
      request, and the FPGA aborts on the answer eight half turns later. */
  lemma UntimelyShutdownAborts() returns (ss: seq<System>, acts: seq<Action>)
    ensures Run(Objects(), 0, ss, acts) && |acts| == 32
    ensures var s := ss[32];
            && ValidSystem(s) && Enabled(s, HalfTurn) && !Timely(s, HalfTurn)
            && Go(s, 8) == Err(AcknowledgeReceivedWithoutAnyRequest)
  {
    ss, acts := WritesBoth();
    ss, acts := GoRun(Objects(), 0, ss, acts, 24);
    SendsObject0();
    var s := ss[31];
    assert s == At(Sent0(), Taken0(), 0xBB, FpgaOut);
    RunInv(Objects(), 0, ss, acts, 31);
    InvIsValid(s);
    hide Inv, ValidSizes, ValidSender, ValidReceiver, Go, Flags, Objects, Choose, Run;
    ss, acts := ExtendRun(Objects(), 0, ss, acts, Notify, Late());
    Aborts();
    LateIsUntimely();
  }
}
