/** The relay between the two buses: three threads and four handshake flags. Each load, store,
    test_and_set and clear is one step, and the threads interleave in any order. The link of module
    Mirror, with its strictly alternating half turns, is what this amounts to. */
module Relay {
  import opened Results
  import opened Bits
  import opened Endpoint
  import opened Pair
  import opened Mirror
  import opened Safety

  /** `ComBus`: two flags, true when set, and two one-byte buffers. */
  datatype Bus = Bus(updated: bool, acknowledge: bool, inBuffer: byte, outBuffer: byte)

  /** Where `event_loop` is: before the handshake, before IN, before OUT, before the acknowledge. */
  datatype LoopPc = Polling | Entered | Served | Wrote

  /** Where the relay thread is in `host_funct` and `client_funct`, which it calls in turn. */
  datatype RelayPc = HostPoll | HostCopy | HostSignal | ClientStart | ClientPoll | ClientCopy | ClientSignal

  datatype Net = Net(
    fpga: Endpoint,
    mcu: Endpoint,
    fpgaPc: LoopPc,
    mcuPc: LoopPc,
    fpgaBus: Bus,
    mcuBus: Bus,
    relayPc: RelayPc,
    firstrun: bool)

  /** The step of one of the threads, or something the environment does. */
  datatype Move = FpgaThread | McuThread | RelayThread | Outside(action: Action)

  function Begin(objects: seq<seq<byte>>, fpgaIn: byte, mcuIn: byte): Net {
    Net(Start(Fpga, objects), Start(Mcu, objects), Polling, Polling,
        Bus(true, true, fpgaIn, 0), Bus(true, true, mcuIn, 0), HostPoll, true)
  }

  /** One step of an endpoint's thread. */
  function LoopStep(e: Endpoint, pc: LoopPc, bus: Bus): Result<(Endpoint, LoopPc, Bus), Error>
    requires Valid(e)
  {
    match pc
    case Polling =>
      if e.role.Fpga? && e.vars.sentSighup then Ok((e, pc, bus))
      else Ok((e, if bus.updated then Polling else Entered, bus.(updated := true)))
    case Entered =>
      var e' :- In(e, bus.inBuffer);
      Ok((e', Served, bus))
    case Served =>
      var (e', b) :- Out(e);
      Ok((e', Wrote, bus.(outBuffer := b)))
    case Wrote => Ok((e, Polling, bus.(acknowledge := false)))
  }

  /** One step of the relay thread. */
  function RelayStep(n: Net): Net {
    match n.relayPc
    case HostPoll =>
      n.(relayPc := if n.mcuBus.acknowledge then ClientStart else HostCopy, mcuBus := n.mcuBus.(acknowledge := true))
    case HostCopy => n.(relayPc := HostSignal, fpgaBus := n.fpgaBus.(inBuffer := n.mcuBus.outBuffer))
    case HostSignal => n.(relayPc := ClientStart, fpgaBus := n.fpgaBus.(updated := false))
    case ClientStart =>
      if n.firstrun then n.(relayPc := ClientPoll, firstrun := false, fpgaBus := n.fpgaBus.(updated := false))
      else n.(relayPc := ClientPoll)
    case ClientPoll =>
      n.(relayPc := if n.fpgaBus.acknowledge then HostPoll else ClientCopy, fpgaBus := n.fpgaBus.(acknowledge := true))
    case ClientCopy => n.(relayPc := ClientSignal, mcuBus := n.mcuBus.(inBuffer := n.fpgaBus.outBuffer))
    case ClientSignal => n.(relayPc := HostPoll, mcuBus := n.mcuBus.(updated := false))
  }

  /** Local writes go to free objects, as in the link. */
  predicate Permitted(n: Net, m: Move)
    requires Valid(n.fpga) && Valid(n.mcu)
  {
    m.Outside? ==>
      match m.action
      case HalfTurn => false
      case LocalWrite(role, id, value) => Writable(if role.Fpga? then n.fpga else n.mcu, id, value)
      case Notify => true
  }

  /** com_shutdown in time, as in the link. */
  predicate InTime(n: Net)
    requires Valid(n.fpga) && Valid(n.mcu)
  {
    && (n.fpgaPc.Served? && Choose(n.fpga).Shutdown? ==> None(n.fpga.tx.transfer))
    && (n.mcuPc.Served? && Choose(n.mcu).Shutdown? ==> None(n.mcu.tx.transfer))
  }

  function NetStep(n: Net, m: Move): Result<Net, Error>
    requires Valid(n.fpga) && Valid(n.mcu) && Permitted(n, m)
  {
    match m
    case FpgaThread =>
      var (e, pc, bus) :- LoopStep(n.fpga, n.fpgaPc, n.fpgaBus);
      Ok(n.(fpga := e, fpgaPc := pc, fpgaBus := bus))
    case McuThread =>
      var (e, pc, bus) :- LoopStep(n.mcu, n.mcuPc, n.mcuBus);
      Ok(n.(mcu := e, mcuPc := pc, mcuBus := bus))
    case RelayThread => Ok(RelayStep(n))
    case Outside(LocalWrite(Fpga, id, value)) => Ok(n.(fpga := Written(n.fpga, id, value)))
    case Outside(LocalWrite(Mcu, id, value)) => Ok(n.(mcu := Written(n.mcu, id, value)))
    case Outside(Notify) => Ok(n.(fpga := StopNotifier(n.fpga)))
  }

  // ----- The token -----

  function Count(b: bool): nat {
    if b then 1 else 0
  }

  /** Flags that are clear and parties that have taken one and not yet passed it on. */
  function Tokens(n: Net): nat {
    Count(!n.fpgaBus.updated) + Count(!n.fpgaPc.Polling?) + Count(!n.fpgaBus.acknowledge)
    + Count(n.relayPc.ClientCopy? || n.relayPc.ClientSignal?)
    + Count(!n.mcuBus.updated) + Count(!n.mcuPc.Polling?) + Count(!n.mcuBus.acknowledge)
    + Count(n.relayPc.HostCopy? || n.relayPc.HostSignal?)
  }

  datatype Place =
    | Nowhere
    | ForFpga | FpgaEntered | FpgaServed | FpgaWrote | FromFpga | ClientCopies | ClientSignals
    | ForMcu | McuEntered | McuServed | McuWrote | FromMcu | HostCopies | HostSignals

  /** Where the one token is. */
  function PlaceOf(n: Net): Place {
    if !n.fpgaBus.updated then ForFpga
    else if n.fpgaPc.Entered? then FpgaEntered
    else if n.fpgaPc.Served? then FpgaServed
    else if n.fpgaPc.Wrote? then FpgaWrote
    else if !n.fpgaBus.acknowledge then FromFpga
    else if n.relayPc.ClientCopy? then ClientCopies
    else if n.relayPc.ClientSignal? then ClientSignals
    else if !n.mcuBus.updated then ForMcu
    else if n.mcuPc.Entered? then McuEntered
    else if n.mcuPc.Served? then McuServed
    else if n.mcuPc.Wrote? then McuWrote
    else if !n.mcuBus.acknowledge then FromMcu
    else if n.relayPc.HostCopy? then HostCopies
    else if n.relayPc.HostSignal? then HostSignals
    else Nowhere
  }

  /** The only way the token goes. */
  function Onward(p: Place): Place {
    match p
    case Nowhere => ForFpga
    case ForFpga => FpgaEntered
    case FpgaEntered => FpgaServed
    case FpgaServed => FpgaWrote
    case FpgaWrote => FromFpga
    case FromFpga => ClientCopies
    case ClientCopies => ClientSignals
    case ClientSignals => ForMcu
    case ForMcu => McuEntered
    case McuEntered => McuServed
    case McuServed => McuWrote
    case McuWrote => FromMcu
    case FromMcu => HostCopies
    case HostCopies => HostSignals
    case HostSignals => ForFpga
  }

  function PhaseAt(p: Place): Phase {
    match p
    case FpgaServed => FpgaOut
    case FpgaWrote | FromFpga | ClientCopies | ClientSignals | ForMcu | McuEntered => McuIn
    case McuServed => McuOut
    case _ => FpgaIn
  }

  /** The buffer that holds the byte on its way. */
  function ByteAt(n: Net): byte {
    match PlaceOf(n)
    case FpgaWrote | FromFpga | ClientCopies => n.fpgaBus.outBuffer
    case ClientSignals | ForMcu | McuEntered => n.mcuBus.inBuffer
    case McuWrote | FromMcu | HostCopies => n.mcuBus.outBuffer
    case _ => n.fpgaBus.inBuffer
  }

  /** The three threads and the four flags, seen as the alternating link. */
  predicate Matches(n: Net, s: System) {
    && Tokens(n) == Count(!n.firstrun)
    && s.fpga == n.fpga && s.mcu == n.mcu
    && s.phase == PhaseAt(PlaceOf(n))
    && (s.phase.FpgaIn? || s.phase.McuIn? ==> s.wire == ByteAt(n))
    && (n.fpgaPc.Entered? || n.fpgaPc.Served? ==> !n.fpga.vars.sentSighup)
  }

  lemma BeginMatches(objects: seq<seq<byte>>, fpgaIn: byte, mcuIn: byte)
    ensures Matches(Begin(objects, fpgaIn, mcuIn), Init(objects, fpgaIn))
  {
  }

  lemma RelaySimulates(n: Net, s: System)
    requires Matches(n, s)
    ensures Matches(RelayStep(n), s)
    ensures PlaceOf(RelayStep(n)) == PlaceOf(n) || PlaceOf(RelayStep(n)) == Onward(PlaceOf(n))
  {
  }

  /** The thread m is about to read or write a byte. */
  predicate Moves(n: Net, m: Move) {
    match m
    case FpgaThread => n.fpgaPc.Entered? || n.fpgaPc.Served?
    case McuThread => n.mcuPc.Entered? || n.mcuPc.Served?
    case _ => false
  }

  /** A step of an endpoint's thread that touches only its flags. */
  lemma FlagSimulates(n: Net, s: System, m: Move)
    requires Matches(n, s) && Valid(n.fpga) && Valid(n.mcu) && s.fpga.role.Fpga? && s.mcu.role.Mcu?
    requires (m.FpgaThread? || m.McuThread?) && !Moves(n, m)
    ensures NetStep(n, m).Ok?
    ensures var n' := NetStep(n, m).value;
            && Matches(n', s)
            && (PlaceOf(n') == PlaceOf(n) || PlaceOf(n') == Onward(PlaceOf(n)))
  {
    hide In, Out, Valid;
  }

  /** A step in which an endpoint reads or writes. */
  lemma TurnSimulates(n: Net, s: System, m: Move)
    requires Inv(s) && Matches(n, s) && Valid(n.fpga) && Valid(n.mcu) && InTime(n)
    requires Moves(n, m)
    ensures Enabled(s, HalfTurn) && Timely(s, HalfTurn)
    ensures Step(s, HalfTurn).Ok? && Inv(Step(s, HalfTurn).value)
    ensures NetStep(n, m).Ok?
    ensures var n' := NetStep(n, m).value;
            && Matches(n', Step(s, HalfTurn).value)
            && PlaceOf(n') == Onward(PlaceOf(n))
  {
    hide InStep, Closing, In, Out, ValidSizes, ValidSender, ValidReceiver, None, Choose;
    StepKeeps(s, HalfTurn);
    if s.phase.FpgaIn? {
      InFrame(s.fpga, s.wire);
    }
  }

  /** The environment may do exactly what it may do to the link... */
  lemma OutsidePermitted(n: Net, s: System, m: Move)
    requires ValidSystem(s) && Matches(n, s) && Valid(n.fpga) && Valid(n.mcu) && m.Outside?
    ensures Permitted(n, m) <==> !m.action.HalfTurn? && Enabled(s, m.action)
  {
    hide ValidSizes, ValidSender, ValidReceiver, Writable;
  }

  /** ... and what it does, it does to the link as well. */
  lemma OutsideSimulates(n: Net, s: System, m: Move)
    requires ValidSystem(s) && Matches(n, s) && Valid(n.fpga) && Valid(n.mcu) && m.Outside? && Permitted(n, m)
    ensures Enabled(s, m.action) && Timely(s, m.action) && Step(s, m.action).Ok?
    ensures NetStep(n, m).Ok? && Matches(NetStep(n, m).value, Step(s, m.action).value)
    ensures PlaceOf(NetStep(n, m).value) == PlaceOf(n)
  {
    hide ValidSizes, ValidSender, ValidReceiver, Writable, Choose;
  }

  /** Simulation: whichever thread moves, it does not abort, the link makes the one half turn that is
      due or stays as it is, and the token stays where it is or goes the one way there is. So turns
      alternate strictly, and a byte is read once, by the peer, before the next is written. */
  lemma Simulates(n: Net, s: System, m: Move) returns (acts: seq<Action>, s': System)
    requires Inv(s) && Matches(n, s) && Valid(n.fpga) && Valid(n.mcu) && Permitted(n, m) && InTime(n)
    ensures NetStep(n, m).Ok? && Inv(s')
    ensures var n' := NetStep(n, m).value;
            && Valid(n'.fpga) && Valid(n'.mcu)
            && Matches(n', s')
            && (PlaceOf(n') == PlaceOf(n) || PlaceOf(n') == Onward(PlaceOf(n)))
    ensures if acts == [] then s' == s else |acts| == 1 && Next(s, acts[0], s')
    ensures |acts| == 1 <==> Moves(n, m) || m.Outside?
  {
    hide InStep, Closing, NetStep, Matches, Step, Enabled, Timely, Permitted, InTime, PlaceOf;
    assert s.fpga == n.fpga && s.mcu == n.mcu && s.fpga.role.Fpga? && s.mcu.role.Mcu? by { MatchesLink(n, s); }
    if m.Outside? {
      OutsideSimulates(n, s, m);
      acts, s' := [m.action], Step(s, m.action).value;
      StepKeeps(s, m.action);
    } else if Moves(n, m) {
      TurnSimulates(n, s, m);
      acts, s' := [HalfTurn], Step(s, HalfTurn).value;
    } else {
      acts, s' := [], s;
      if m.RelayThread? {
        RelaySimulates(n, s);
        assert NetStep(n, m) == Ok(RelayStep(n)) by { RelayMoves(n); }
      } else {
        FlagSimulates(n, s, m);
      }
    }
    MatchesLink(NetStep(n, m).value, s');
  }

  lemma MatchesLink(n: Net, s: System)
    requires Inv(s) && Matches(n, s)
    ensures s.fpga == n.fpga && s.mcu == n.mcu && s.fpga.role.Fpga? && s.mcu.role.Mcu?
  {
    hide InStep, ValidSystem;
  }

  lemma RelayMoves(n: Net)
    requires Valid(n.fpga) && Valid(n.mcu)
    ensures NetStep(n, RelayThread) == Ok(RelayStep(n))
  {
    hide Valid;
  }

  // ----- Runs of the three threads -----

  /** Any interleaving of the threads and the environment. */
  ghost predicate NetRun(objects: seq<seq<byte>>, fpgaIn: byte, mcuIn: byte, ns: seq<Net>, ms: seq<Move>) {
    && ValidSizes(objects)
    && |ns| == |ms| + 1
    && ns[0] == Begin(objects, fpgaIn, mcuIn)
    && forall i :: 0 <= i < |ms| ==> NetNext(ns[i], ms[i], ns[i + 1])
  }

  ghost predicate NetNext(n: Net, m: Move, n': Net) {
    Valid(n.fpga) && Valid(n.mcu) && Permitted(n, m) && InTime(n) && NetStep(n, m) == Ok(n')
  }

  /** Every run of the three threads is a run of the link: all that is proved about the link's runs
      holds of the threads, and its strict alternation is no assumption. */
  lemma {:induction false} NetRunIsRun(objects: seq<seq<byte>>, fpgaIn: byte, mcuIn: byte, ns: seq<Net>, ms: seq<Move>)
    returns (ss: seq<System>, acts: seq<Action>)
    requires NetRun(objects, fpgaIn, mcuIn, ns, ms)
    ensures Run(objects, fpgaIn, ss, acts)
    ensures Matches(ns[|ms|], ss[|acts|]) && Inv(ss[|acts|])
    decreases |ms|
  {
    hide Inv, NetStep, Matches, Step, Enabled, Timely, Permitted, InTime, Begin, Init, PlaceOf;
    if ms == [] {
      ss, acts := [Init(objects, fpgaIn)], [];
      BeginMatches(objects, fpgaIn, mcuIn);
      InitInv(objects, fpgaIn);
    } else {
      var k := |ms| - 1;
      ss, acts := NetRunIsRun(objects, fpgaIn, mcuIn, ns[..k + 1], ms[..k]);
      var n, s := ns[k], ss[|acts|];
      assert ns[..k + 1][k] == n && NetNext(n, ms[k], ns[k + 1]);
      var more, s' := Simulates(n, s, ms[k]);
      if more != [] {
        ss, acts := ExtendRun(objects, fpgaIn, ss, acts, more[0], s');
      }
    }
  }

  /** Single token: in every reachable state, once the relay has flipped the first handshake, exactly
      one flag is clear or exactly one party holds the turn; and no thread can abort. */
  lemma OneToken(objects: seq<seq<byte>>, fpgaIn: byte, mcuIn: byte, ns: seq<Net>, ms: seq<Move>, m: Move)
    requires NetRun(objects, fpgaIn, mcuIn, ns, ms)
    ensures var n := ns[|ms|];
            && Tokens(n) == (if n.firstrun then 0 else 1)
            && Valid(n.fpga) && Valid(n.mcu)
            && (Permitted(n, m) && InTime(n) ==> NetStep(n, m).Ok?)
  {
    hide InStep, Closing, NetStep, Step, Enabled, Timely, Permitted, InTime, Begin, Init, PlaceOf;
    var ss, acts := NetRunIsRun(objects, fpgaIn, mcuIn, ns, ms);
    var n := ns[|ms|];
    if Permitted(n, m) && InTime(n) {
      var more, s' := Simulates(n, ss[|acts|], m);
    }
  }

  // ----- The token does not rest -----

  /** The thread whose step moves the token. */
  function Holder(p: Place): Move {
    match p
    case ForFpga | FpgaEntered | FpgaServed | FpgaWrote => FpgaThread
    case ForMcu | McuEntered | McuServed | McuWrote => McuThread
    case _ => RelayThread
  }

  /** How many steps of that thread it takes: the relay may have to come round to the flag first. */
  function Wait(n: Net): nat {
    match PlaceOf(n)
    case FromFpga => if n.relayPc.ClientPoll? then 1 else if n.relayPc.ClientStart? then 2 else 3
    case FromMcu => if n.relayPc.HostPoll? then 1 else if n.relayPc.ClientPoll? then 2 else 3
    case Nowhere => if n.relayPc.ClientStart? then 1 else if n.relayPc.HostPoll? then 2 else 3
    case _ => 1
  }

  /** `handshake_query` has stopped the FPGA before a byte it will never read. */
  predicate Over(n: Net) {
    PlaceOf(n).ForFpga? && n.fpga.vars.sentSighup
  }

  /** A step of the holder moves the token or brings it one step closer to moving; no other step of a
      thread and nothing from outside takes it away or delays it; and only after the FPGA's sighup does
      it rest. */
  lemma HolderMoves(n: Net, m: Move)
    requires Tokens(n) == Count(!n.firstrun) && Valid(n.fpga) && Valid(n.mcu)
    requires n.fpga.role.Fpga? && n.mcu.role.Mcu?
    requires Permitted(n, m) && NetStep(n, m).Ok? && !Over(n)
    ensures var n' := NetStep(n, m).value;
            if m == Holder(PlaceOf(n)) then
              if Wait(n) == 1 then PlaceOf(n') == Onward(PlaceOf(n))
              else PlaceOf(n') == PlaceOf(n) && Wait(n') == Wait(n) - 1
            else PlaceOf(n') == PlaceOf(n) && Wait(n') == Wait(n)
    ensures 1 <= Wait(n) <= 3
  {
    hide In, Out, Valid, Writable;
  }

  /** How often m is among the moves from i to k. */
  function Turns(ms: seq<Move>, m: Move, i: nat, k: nat): nat
    requires i <= k <= |ms|
    decreases k
  {
    if i == k then 0 else Turns(ms, m, i, k - 1) + (if ms[k - 1] == m then 1 else 0)
  }

  /** In every run of the threads, and for every order in which they step, the token has moved on by
      the time its holder has made three steps, unless the FPGA has stopped. So it does under any
      schedule that lets each thread step again and again. */
  lemma {:induction false} TokenMoves(objects: seq<seq<byte>>, fpgaIn: byte, mcuIn: byte, ns: seq<Net>, ms: seq<Move>,
                                      i: nat, k: nat)
    requires NetRun(objects, fpgaIn, mcuIn, ns, ms) && i <= k <= |ms|
    requires forall j :: i <= j <= k ==> PlaceOf(ns[j]) == PlaceOf(ns[i]) && !Over(ns[j])
    ensures Turns(ms, Holder(PlaceOf(ns[i])), i, k) + Wait(ns[k]) == Wait(ns[i])
    ensures Turns(ms, Holder(PlaceOf(ns[i])), i, k) < 3
    decreases k
  {
    hide PlaceOf, Wait, NetStep, Permitted, InTime, Begin, Over, Holder, Tokens, Valid, ValidSizes;
    OneTokenAt(objects, fpgaIn, mcuIn, ns, ms, k);
    assert 1 <= Wait(ns[k]) <= 3 by { WaitIs(ns[k]); }
    assert Wait(ns[i]) <= 3 by { WaitIs(ns[i]); }
    if i < k {
      TokenMoves(objects, fpgaIn, mcuIn, ns, ms, i, k - 1);
      OneTokenAt(objects, fpgaIn, mcuIn, ns, ms, k - 1);
      assert NetNext(ns[k - 1], ms[k - 1], ns[k]);
      HolderMoves(ns[k - 1], ms[k - 1]);
      OnwardMoves(PlaceOf(ns[k]));
    }
  }

  lemma WaitIs(n: Net)
    ensures 1 <= Wait(n) <= 3
  {
    hide PlaceOf;
  }

  lemma OnwardMoves(p: Place)
    ensures Onward(p) != p
  {
  }

  lemma OneTokenAt(objects: seq<seq<byte>>, fpgaIn: byte, mcuIn: byte, ns: seq<Net>, ms: seq<Move>, k: nat)
    requires NetRun(objects, fpgaIn, mcuIn, ns, ms) && k <= |ms|
    ensures Tokens(ns[k]) == Count(!ns[k].firstrun) && Valid(ns[k].fpga) && Valid(ns[k].mcu)
    ensures ns[k].fpga.role.Fpga? && ns[k].mcu.role.Mcu?
  {
    hide InStep, Closing, NetStep, Step, Enabled, Timely, Permitted, InTime, Begin, Init, PlaceOf;
    var ss, acts := NetRunIsRun(objects, fpgaIn, mcuIn, ns[..k + 1], ms[..k]);
    MatchesLink(ns[k], ss[|acts|]);
  }

  // ----- The relay functions, uninterrupted -----

  /** That many steps of the relay thread alone. */
  function Steps(n: Net, count: nat): Net
    decreases count
  {
    if count == 0 then n else Steps(RelayStep(n), count - 1)
  }

  /** What one call of `client_funct` does to the two buses. */
  function ClientPass(first: bool, fpga: Bus, mcu: Bus): (Bus, Bus) {
    var fpga1 := if first then fpga.(updated := false) else fpga;
    if fpga.acknowledge then (fpga1, mcu)
    else (fpga1.(acknowledge := true), mcu.(inBuffer := fpga.outBuffer, updated := false))
  }

  /** What one call of `host_funct` does. */
  function HostPass(fpga: Bus, mcu: Bus): (Bus, Bus) {
    if mcu.acknowledge then (fpga, mcu)
    else (fpga.(inBuffer := mcu.outBuffer, updated := false), mcu.(acknowledge := true))
  }

  lemma StepsAre(n: Net)
    ensures Steps(n, 1) == RelayStep(n)
    ensures Steps(n, 2) == RelayStep(RelayStep(n))
    ensures Steps(n, 3) == RelayStep(RelayStep(RelayStep(n)))
  {
    hide RelayStep;
    assert Steps(RelayStep(n), 1) == RelayStep(RelayStep(n));
  }

  lemma {:induction false} StepsAdd(n: Net, a: nat, b: nat)
    ensures Steps(n, a + b) == Steps(Steps(n, a), b)
    decreases a
  {
    hide RelayStep;
    if a > 0 {
      StepsAdd(RelayStep(n), a - 1, b);
    }
  }

  /** The relay thread, with nothing in between, runs `host_funct`... */
  lemma HostSteps(n: Net)
    requires n.relayPc.HostPoll?
    ensures var (fpga, mcu) := HostPass(n.fpgaBus, n.mcuBus);
            Steps(n, if n.mcuBus.acknowledge then 1 else 3)
            == n.(relayPc := ClientStart, fpgaBus := fpga, mcuBus := mcu)
  {
    hide Steps;
    StepsAre(n);
  }

  /** ... and then `client_funct`. */
  lemma ClientSteps(n: Net)
    requires n.relayPc.ClientStart?
    ensures var (fpga, mcu) := ClientPass(n.firstrun, n.fpgaBus, n.mcuBus);
            Steps(n, if n.fpgaBus.acknowledge then 2 else 4)
            == n.(relayPc := HostPoll, firstrun := false, fpgaBus := fpga, mcuBus := mcu)
  {
    hide Steps;
    StepsAre(n);
    StepsAdd(n, 1, 3);
    StepsAre(RelayStep(n));
  }

  class ComBus {
    var updated: bool
    var acknowledge: bool
    const inBuffer: array<byte>
    const outBuffer: array<byte>

    constructor ()
      ensures fresh(inBuffer) && fresh(outBuffer) && inBuffer.Length == outBuffer.Length == 1
      ensures updated && acknowledge
    {
      updated, acknowledge := true, true;
      inBuffer, outBuffer := new byte[1], new byte[1];
    }

    function View(): Bus
      reads this, inBuffer, outBuffer
      requires inBuffer.Length == outBuffer.Length == 1
    {
      Bus(updated, acknowledge, inBuffer[0], outBuffer[0])
    }
  }

  /** The copy loop of the relay functions, for buffers of any length. */
  method CopyBuffer(source: array<byte>, target: array<byte>)
    requires source.Length == target.Length && source != target
    modifies target
    ensures target[..] == source[..]
  {
    for n := 0 to target.Length
      invariant target[..n] == source[..n]
    {
      target[n] := source[n];
    }
    assert target[..target.Length] == target[..] && source[..target.Length] == source[..];
  }

  method ClientFunct(fpga: ComBus, mcu: ComBus, first: bool)
    requires fpga != mcu && fpga.outBuffer != mcu.inBuffer
    requires fpga.inBuffer != mcu.inBuffer && mcu.outBuffer != mcu.inBuffer
    requires fpga.inBuffer.Length == fpga.outBuffer.Length == mcu.inBuffer.Length == mcu.outBuffer.Length == 1
    modifies fpga, mcu, mcu.inBuffer
    ensures (fpga.View(), mcu.View()) == ClientPass(first, old(fpga.View()), old(mcu.View()))
  {
    if first {
      fpga.updated := false;
    }
    var held := fpga.acknowledge;
    fpga.acknowledge := true;
    if !held {
      CopyBuffer(fpga.outBuffer, mcu.inBuffer);
      assert mcu.inBuffer[..][0] == fpga.outBuffer[..][0];
      mcu.updated := false;
    }
  }

  method HostFunct(fpga: ComBus, mcu: ComBus)
    requires fpga != mcu && mcu.outBuffer != fpga.inBuffer
    requires mcu.inBuffer != fpga.inBuffer && fpga.outBuffer != fpga.inBuffer
    requires fpga.inBuffer.Length == fpga.outBuffer.Length == mcu.inBuffer.Length == mcu.outBuffer.Length == 1
    modifies fpga, mcu, fpga.inBuffer
    ensures (fpga.View(), mcu.View()) == HostPass(old(fpga.View()), old(mcu.View()))
  {
    var held := mcu.acknowledge;
    mcu.acknowledge := true;
    if !held {
      CopyBuffer(mcu.outBuffer, fpga.inBuffer);
      assert fpga.inBuffer[..][0] == mcu.outBuffer[..][0];
      fpga.updated := false;
    }
  }
}
