/** How much is left to send, why every turn sends some of it, and how long it takes until
    everything is delivered. */
module Progress {
  import opened Results
  import opened Bits
  import opened Codec
  import opened Endpoint
  import opened Link
  import opened Pair
  import opened Mirror
  import opened Safety
  import opened Delivery
  import opened Shutdown
  import opened Values

  // ----- The measure -----

  /** Bytes a side still has to write for object j: one request, unless it is on its way or granted,
      and the sextets. */
  function Load(e: Endpoint, j: nat): nat
    requires Valid(e) && j < |e.objects|
  {
    if e.tx.transfer[j] then Cost(|e.objects[j]|)
    else if e.sync[j] then Cost(|e.objects[j]|) + (if RequestedBy(e, j) then 0 else 1)
    else 0
  }

  function Loads(e: Endpoint): (s: seq<nat>)
    requires Valid(e)
    ensures |s| == |e.objects|
    ensures forall j :: 0 <= j < |s| ==> s[j] == Load(e, j)
  {
    seq(|e.objects|, j requires 0 <= j < |e.objects| => Load(e, j))
  }

  function Sum(s: seq<nat>): nat {
    if s == [] then 0 else s[0] + Sum(s[1..])
  }

  /** The loads, less the sextets already sent of the open object. */
  function Work(e: Endpoint): int
    requires Valid(e)
  {
    Sum(Loads(e)) - (if e.tx.lock then SentCount(e.tx) else 0)
  }

  lemma {:induction false} SumUpdate(s: seq<nat>, k: nat, v: nat)
    requires k < |s|
    ensures Sum(s[k := v]) == Sum(s) - s[k] + v
  {
    if k == 0 {
      assert s[k := v][1..] == s[1..];
    } else {
      assert s[k := v][1..] == s[1..][k - 1 := v];
      SumUpdate(s[1..], k - 1, v);
    }
  }

  lemma {:induction false} SumMonotone(s: seq<nat>, t: seq<nat>)
    requires |s| == |t| && forall k :: 0 <= k < |s| ==> s[k] <= t[k]
    ensures Sum(s) <= Sum(t)
  {
    if s != [] {
      SumMonotone(s[1..], t[1..]);
    }
  }

  lemma {:induction false} SumAtLeast(s: seq<nat>, k: nat)
    requires k < |s|
    ensures s[k] <= Sum(s)
  {
    if k > 0 {
      SumAtLeast(s[1..], k - 1);
    }
  }

  lemma {:induction false} SumOfZeros(s: seq<nat>)
    requires forall k :: 0 <= k < |s| ==> s[k] == 0
    ensures Sum(s) == 0
  {
    if s != [] {
      SumOfZeros(s[1..]);
    }
  }

  /** Only object k's load changes. */
  lemma LoadsUpdate(e: Endpoint, e': Endpoint, k: nat)
    requires Valid(e) && Valid(e') && |e.objects| == |e'.objects| && k < |e.objects|
    requires forall j :: 0 <= j < |e.objects| && j != k ==> Load(e', j) == Load(e, j)
    ensures Sum(Loads(e')) == Sum(Loads(e)) - Load(e, k) + Load(e', k)
  {
    hide Load, Valid, Sum;
    assert Loads(e') == Loads(e)[k := Load(e', k)];
    SumUpdate(Loads(e), k, Load(e', k));
  }

  lemma SentBelowCost(tx: Sender, objects: seq<seq<byte>>)
    requires ValidSizes(objects) && ValidSender(tx, objects) && tx.lock
    ensures 0 <= SentCount(tx) < Cost(|objects[tx.origin]|)
  {
  }

  /** The measure is never negative and is zero exactly when nothing is left to be sent. */
  lemma WorkLeft(e: Endpoint, copy: seq<seq<byte>>)
    requires Side(e, copy)
    ensures Work(e) >= 0
    ensures Work(e) == 0 <==> None(e.sync) && None(e.tx.transfer)
  {
    hide Copied, ValidReceiver, Sum, Blank, SentCount;
    assert forall j :: 0 <= j < |e.objects| ==> Cost(|e.objects[j]|) > 0;
    if e.tx.lock {
      SentBelowCost(e.tx, e.objects);
      SumAtLeast(Loads(e), e.tx.origin);
      assert Load(e, e.tx.origin) == Cost(|e.objects[e.tx.origin]|);
      assert !None(e.tx.transfer);
    } else {
      if j :| 0 <= j < NUM_IDS && (e.sync[j] || e.tx.transfer[j]) {
        SumAtLeast(Loads(e), j);
        assert Load(e, j) > 0;
      } else {
        SumOfZeros(Loads(e));
      }
    }
  }

  // ----- IN never adds work, OUT takes one off -----

  lemma InWork(x: Endpoint, y: Endpoint, copyX: seq<seq<byte>>, copyY: seq<seq<byte>>, b: byte)
    requires Sent(x, y, copyX, copyY, b) && !y.vars.receivedSighup
    ensures In(y, b).Ok? && Work(In(y, b).value) <= Work(y)
  {
    hide Synced, Exclusive, Coherent, Copied, Flight, Handshake, None, Blank, RequestBitClear, Sum, SentCount, Cost;
    if !y.firstRun {
      hide In;
      InEffect(x, y, copyX, copyY, b);
      InKeeps(x, y, copyX, copyY, b);
      var y' := In(y, b).value;
      assert forall j :: 0 <= j < |y.objects| ==> Load(y', j) <= Load(y, j);
      SumMonotone(Loads(y'), Loads(y));
    }
  }

  lemma SendDataWork(e: Endpoint)
    requires Valid(e) && e.tx.lock && e.tx.transfer[e.tx.origin] && !e.sync[e.tx.origin]
    ensures Work(SendData(e).0) == Work(e) - 1
  {
    hide WriteObject, SentCount, Sum, ValidReceiver, Cost;
    WriteCounts(e.tx, e.objects, e.wires);
    var e' := SendData(e).0;
    if e'.tx.lock {
      assert Loads(e') == Loads(e);
    } else {
      LoadsUpdate(e, e', e.tx.origin);
    }
  }

  lemma OutWork(e: Endpoint, copy: seq<seq<byte>>)
    requires Side(e, copy) && !e.firstRun && !e.vars.acknowledgeRequested && Out(e).Ok?
    requires Choose(e).Shutdown? ==> None(e.tx.transfer)
    requires e.vars.sentComShutdown ==> None(e.sync)
    ensures Work(Out(e).value.0) == if Work(e) == 0 then 0 else Work(e) - 1
  {
    hide Out, Work, Choose, Exclusive, Copied, ValidSizes, ValidSender, ValidReceiver, None, Blank;
    if Choose(e).Data? || Choose(e).Transfer? {
      DataWork(e, copy);
    } else if Choose(e).Request? {
      RequestWork(e, copy);
    } else {
      IdleWork(e, copy);
    }
  }

  lemma SomeTransfer(e: Endpoint, copy: seq<seq<byte>>, j: nat)
    requires Side(e, copy) && j < NUM_IDS && (e.tx.transfer[j] || e.sync[j])
    ensures Work(e) > 0
  {
    hide Work, Copied, Exclusive, ValidReceiver;
    WorkLeft(e, copy);
  }

  lemma DataWork(e: Endpoint, copy: seq<seq<byte>>)
    requires Side(e, copy) && !e.vars.acknowledgeRequested && Out(e).Ok?
    requires Choose(e).Data? || Choose(e).Transfer?
    ensures Work(Out(e).value.0) == Work(e) - 1
    ensures Work(e) > 0
  {
    hide SendData, ValidReceiver, Sum, Copied, None, TransfersPending, IncomingShutdownQuery, OutgoingSighupQuery;
    WorkLeft(e, copy);
    var e0 := if e.tx.lock then e.(waiting := NUM_IDS)
              else e.(waiting := NUM_IDS, tx := Opening(e.tx, FirstTransfer(e)));
    assert Loads(e0) == Loads(e);
    SendDataWork(e0);
    assert Work(e) == Work(e0);
    SomeTransfer(e, copy, e0.tx.origin);
  }

  lemma RequestWork(e: Endpoint, copy: seq<seq<byte>>)
    requires Side(e, copy) && !e.vars.acknowledgeRequested && Out(e).Ok?
    requires Choose(e).Request?
    ensures Work(Out(e).value.0) == Work(e) - 1
    ensures Work(e) > 0
  {
    hide ValidReceiver, Sum, Copied, None, SetSignals, Cost, WritesPending, IncomingShutdownQuery, OutgoingSighupQuery;
    var k := FirstUnsynced(e);
    assert e.sync[k] && !e.tx.transfer[k] by { assert Unsynced(e.sync, e.tx.transfer)[k]; }
    LoadsUpdate(e, Out(e).value.0, k);
    SomeTransfer(e, copy, k);
  }

  lemma IdleWork(e: Endpoint, copy: seq<seq<byte>>)
    requires Side(e, copy) && !e.firstRun && !e.vars.acknowledgeRequested && Out(e).Ok?
    requires Choose(e).Shutdown? ==> None(e.tx.transfer)
    requires e.vars.sentComShutdown ==> None(e.sync)
    requires !Choose(e).Data? && !Choose(e).Transfer? && !Choose(e).Request?
    ensures Work(e) == 0 && Work(Out(e).value.0) == 0
    ensures Out(e).value.0.tx == e.tx
  {
    hide ValidSender, ValidReceiver, Sum, Copied, SetSignals, Cost, ReadsPending, WritesPending, SentCount;
    assert None(e.tx.transfer) by { NonePending(e, copy); }
    assert None(e.sync) by {
      forall j | 0 <= j < NUM_IDS
        ensures !e.sync[j]
      {
        assert j < |e.objects| ==> Unsynced(e.sync, e.tx.transfer)[j] == e.sync[j];
      }
    }
    WorkLeft(e, copy);
    var e' := Out(e).value.0;
    assert Loads(e') == Loads(e);
  }

  /** Termination measure: a whole turn of a side with work left takes at least one off it, and
      takes nothing off the other side's. */
  lemma TurnLowersWork(x: Endpoint, y: Endpoint, copyX: seq<seq<byte>>, copyY: seq<seq<byte>>, b: byte)
    requires Sent(x, y, copyX, copyY, b) && !y.firstRun && !y.vars.receivedSighup
    requires In(y, b).Ok? && Out(In(y, b).value).Ok?
    requires Choose(In(y, b).value).Shutdown? ==> None(In(y, b).value.tx.transfer)
    requires In(y, b).value.vars.sentComShutdown ==> None(In(y, b).value.sync)
    ensures Work(Out(In(y, b).value).value.0) <= if Work(y) > 0 then Work(y) - 1 else 0
  {
    hide In, Out, Choose, Work, Sent, Synced, Copied, Coherent, ValidSizes, ValidSender, ValidReceiver,
         Exclusive, None, RequestBitClear, Blank;
    SentSides(x, y, copyX, copyY, b);
    InKeeps(x, y, copyX, copyY, b);
    InWork(x, y, copyX, copyY, b);
    InFrame(y, b);
    WorkLeft(y, copyY);
    OutWork(In(y, b).value, copyY);
  }

  lemma SentSides(x: Endpoint, y: Endpoint, copyX: seq<seq<byte>>, copyY: seq<seq<byte>>, b: byte)
    requires Sent(x, y, copyX, copyY, b)
    ensures Side(x, copyX) && Side(y, copyY)
  {
    hide Side, Synced, Coherent, Grants, Flight, Handshake, Blank;
  }

  // ----- The link left to itself -----

  /** n half turns with nothing else happening; where `handshake_query` stops the link it stays. */
  function Go(s: System, n: nat): Result<System, Error>
    decreases n
  {
    if n == 0 || !ValidSystem(s) || !Enabled(s, HalfTurn) then Ok(s)
    else
      var s' :- Step(s, HalfTurn);
      Go(s', n - 1)
  }

  /** Nobody has been told to stop. */
  predicate Unstopped(s: System) {
    && !s.fpga.vars.descendantsNotified && !s.mcu.vars.descendantsNotified
    && !s.fpga.vars.sentComShutdown && !s.mcu.vars.sentComShutdown
  }

  /** Hypothesis on the whole future of a link left to itself: com_shutdown never leaves while an
      accepted object waits. */
  ghost predicate Prompt(s: System) {
    forall i: nat :: Go(s, i).Ok? && ValidSystem(Go(s, i).value) ==> Timely(Go(s, i).value, HalfTurn)
  }

  /** States from which the link needs no further help. */
  ghost predicate Driven(s: System) {
    Inv(s) && Settled(s) && Prompt(s)
  }

  lemma UnstoppedIsTimely(s: System)
    requires ValidSystem(s) && Unstopped(s)
    ensures Timely(s, HalfTurn)
  {
    hide Choose, ValidSizes, ValidSender, ValidReceiver, None;
    ChooseFrame(s.fpga);
    ChooseFrame(s.mcu);
  }

  lemma UnstoppedTurn(s: System)
    requires Inv(s) && Unstopped(s) && Enabled(s, HalfTurn)
    ensures Step(s, HalfTurn).Ok? && Inv(Step(s, HalfTurn).value) && Unstopped(Step(s, HalfTurn).value)
  {
    hide Sent, Taken, In, Out, None, Choose, Settled, Timely;
    UnstoppedIsTimely(s);
    StepKeeps(s, HalfTurn);
    var s' := Step(s, HalfTurn).value;
    if s.phase.FpgaOut? {
      ChooseFrame(s.fpga);
      OutFrame(s.fpga);
    } else if s.phase.McuOut? {
      ChooseFrame(s.mcu);
      OutFrame(s.mcu);
    }
    if s.phase.FpgaIn? {
      InFrame(s.fpga, s.wire);
      TakenFlags(s.mcu, s'.fpga, s'.mcuCopy, s'.fpgaCopy);
    } else if s.phase.McuIn? {
      InFrame(s.mcu, s.wire);
      TakenFlags(s.fpga, s'.mcu, s'.fpgaCopy, s'.mcuCopy);
    }
  }

  lemma TakenFlags(x: Endpoint, y: Endpoint, copyX: seq<seq<byte>>, copyY: seq<seq<byte>>)
    requires Taken(x, y, copyX, copyY)
    ensures y.vars.receivedComShutdown == x.vars.sentComShutdown && x.vars.receivedComShutdown == y.vars.sentComShutdown
    ensures y.vars.receivedSighup == x.vars.sentSighup && x.vars.receivedSighup == y.vars.sentSighup
    ensures Side(x, copyX) && Side(y, copyY)
    ensures !y.vars.acknowledgeRequested
    ensures x.firstRun ==> y.firstRun
  {
    hide Side, Synced, Coherent, Grants, Blank;
  }

  lemma InvIsValid(s: System)
    requires Inv(s)
    ensures ValidSystem(s)
  {
    hide InStep, Closing;
  }

  lemma {:induction false} GoOn(s: System, m: nat, n: nat)
    requires Go(s, m).Ok?
    ensures Go(s, m + n) == Go(Go(s, m).value, n)
    decreases m
  {
    hide ValidSystem, Step, Enabled;
    if m > 0 {
      if !ValidSystem(s) || !Enabled(s, HalfTurn) {
        assert Go(s, m) == Ok(s) == Go(s, m + n) == Go(s, n);
      } else {
        GoOn(Step(s, HalfTurn).value, m - 1, n);
      }
    }
  }

  lemma PromptNow(s: System)
    requires ValidSystem(s) && Prompt(s)
    ensures Timely(s, HalfTurn)
  {
    hide ValidSystem, Timely;
    assert Go(s, 0) == Ok(s);
  }

  lemma PromptLater(s: System)
    requires Prompt(s) && Go(s, 1).Ok?
    ensures Prompt(Go(s, 1).value)
  {
    hide ValidSystem, Timely, Go;
    var s' := Go(s, 1).value;
    forall i: nat | Go(s', i).Ok? && ValidSystem(Go(s', i).value)
      ensures Timely(Go(s', i).value, HalfTurn)
    {
      GoOn(s, 1, i);
    }
  }

  /** A driven link goes on by itself until the shutdown is over. */
  lemma DrivenTurn(s: System)
    requires Driven(s)
    ensures Go(s, 1).Ok?
    ensures var s' := Go(s, 1).value;
            && Driven(s')
            && (if ValidSystem(s) && Enabled(s, HalfTurn) then Next(s, HalfTurn, s') else s' == s)
  {
    hide Inv, Step, Settled, Prompt, Enabled, Timely, ValidSystem;
    InvIsValid(s);
    PromptNow(s);
    if Enabled(s, HalfTurn) {
      StepKeeps(s, HalfTurn);
      var s' := Step(s, HalfTurn).value;
      assert Go(s, 1) == Go(s', 0) == Ok(s');
      SettledKeeps(s, HalfTurn, s');
      PromptLater(s);
    } else {
      assert Go(s, 1) == Ok(s);
    }
  }

  lemma {:induction false} NarrowGoesOn(s: System, n: nat)
    requires Inv(s) && ValidSystem(s) && NarrowSystem(s)
    ensures Go(s, n).Ok? && Inv(Go(s, n).value) && ValidSystem(Go(s, n).value) && NarrowSystem(Go(s, n).value)
    decreases n
  {
    hide Inv, ValidSystem, Step, NarrowSystem, Enabled, Timely;
    if n > 0 && Enabled(s, HalfTurn) {
      NarrowKeeps(s, HalfTurn);
      InvIsValid(Step(s, HalfTurn).value);
      NarrowGoesOn(Step(s, HalfTurn).value, n - 1);
    }
  }

  /** Frugal clients meet the hypothesis. */
  lemma NarrowIsDriven(s: System)
    requires Inv(s) && Settled(s) && ValidSystem(s) && NarrowSystem(s)
    ensures Driven(s)
  {
    hide Inv, Go, ValidSystem, Settled, NarrowSystem, Timely;
    forall i: nat | Go(s, i).Ok? && ValidSystem(Go(s, i).value)
      ensures Timely(Go(s, i).value, HalfTurn)
    {
      NarrowGoesOn(s, i);
      NarrowIsTimely(Go(s, i).value, HalfTurn);
    }
  }

  lemma {:induction false} UnstoppedGoesOn(s: System, n: nat)
    requires Inv(s) && Unstopped(s)
    ensures Go(s, n).Ok? && Inv(Go(s, n).value) && Unstopped(Go(s, n).value)
    decreases n
  {
    hide Inv, ValidSystem, Step, Unstopped, Enabled, Timely;
    if n > 0 && ValidSystem(s) && Enabled(s, HalfTurn) {
      UnstoppedTurn(s);
      UnstoppedGoesOn(Step(s, HalfTurn).value, n - 1);
    }
  }

  /** Until somebody is told to stop there is nothing to assume. */
  lemma UnstoppedIsDriven(s: System)
    requires Inv(s) && Unstopped(s)
    ensures Driven(s)
  {
    hide Inv, Go, ValidSystem, Timely;
    forall i: nat | Go(s, i).Ok? && ValidSystem(Go(s, i).value)
      ensures Timely(Go(s, i).value, HalfTurn)
    {
      UnstoppedGoesOn(s, i);
      UnstoppedIsTimely(Go(s, i).value);
    }
  }

  /** A link left to itself loses no copy that stands and makes up no value. */
  lemma {:induction false} GoValues(s: System, n: nat, j: nat)
    requires Driven(s) && ValidSystem(s) && j < |s.fpga.objects|
    ensures Go(s, n).Ok?
    ensures var t := Go(s, n).value;
            && Driven(t) && ValidSystem(t) && |t.fpga.objects| == |s.fpga.objects|
            && (forall role :: Stands(s, role, j) ==>
                  Stands(t, role, j) && SideOf(t, role).objects[j] == SideOf(s, role).objects[j])
            && (Contested(s, j) ==>
                  || (Contested(t, j) && t.fpga.objects[j] == s.fpga.objects[j] && t.mcu.objects[j] == s.mcu.objects[j])
                  || (exists role :: Stands(t, role, j) && SideOf(t, role).objects[j] == SideOf(s, role).objects[j]))
    decreases n
  {
    hide Inv, Settled, Prompt, Next, Stands, Contested, Go, Enabled;
    GoNowhere(s);
    if n > 0 {
      DrivenTurn(s);
      GoOn(s, 1, n - 1);
      if Enabled(s, HalfTurn) {
        var s' := Go(s, 1).value;
        TurnValues(s, s', j);
        GoValues(s', n - 1, j);
      } else {
        GoValues(s, n - 1, j);
      }
    }
  }

  lemma GoNowhere(s: System)
    ensures Go(s, 0) == Ok(s)
  {
  }

  lemma TurnValues(s: System, s': System, j: nat)
    requires Inv(s) && ValidSystem(s) && Next(s, HalfTurn, s') && j < |s.fpga.objects|
    ensures Inv(s') && ValidSystem(s') && |s'.fpga.objects| == |s.fpga.objects|
    ensures forall role :: Stands(s, role, j) ==>
              Stands(s', role, j) && SideOf(s', role).objects[j] == SideOf(s, role).objects[j]
    ensures Contested(s, j) ==>
              && s'.fpga.objects[j] == s.fpga.objects[j] && s'.mcu.objects[j] == s.mcu.objects[j]
              && (Contested(s', j) || Stands(s', Fpga, j) || Stands(s', Mcu, j))
  {
    hide Inv, Next, Stands, Contested, ValidSender, ValidReceiver;
    StepValues(s, HalfTurn, s', Fpga, j);
    forall role | Stands(s, role, j)
      ensures Stands(s', role, j) && SideOf(s', role).objects[j] == SideOf(s, role).objects[j]
    {
      StandsKeeps(s, HalfTurn, s', role, j);
    }
    if Contested(s, j) {
      ContestedKeeps(s, HalfTurn, s', j);
      EitherStands(s', j);
    }
  }

  // ----- Half turns and the measure -----

  function Following(p: Phase): Phase {
    match p
    case FpgaIn => FpgaOut
    case FpgaOut => McuIn
    case McuIn => McuOut
    case McuOut => FpgaIn
  }

  /** The FPGA has at most f and the MCU at most m bytes left to write. */
  predicate AtMost(s: System, f: nat, m: nat) {
    ValidSystem(s) && Work(s.fpga) <= f && Work(s.mcu) <= m
  }

  predicate Stopped(s: System) {
    s.phase.FpgaIn? && s.fpga.vars.sentSighup
  }

  function Less(n: nat, due: bool): nat {
    if due && n > 0 then n - 1 else n
  }

  /** The states before and after one half turn of a driven link. */
  ghost predicate Turned(s: System, s': System) {
    && Driven(s) && Driven(s')
    && ValidSystem(s) && ValidSystem(s')
    && Enabled(s, HalfTurn) && Timely(s, HalfTurn) && Step(s, HalfTurn) == Ok(s')
  }

  lemma InHalfWork(s: System, s': System, f: nat, m: nat)
    requires Turned(s, s') && AtMost(s, f, m) && (s.phase.FpgaIn? || s.phase.McuIn?)
    ensures AtMost(s', f, m) && s'.phase == Following(s.phase)
    ensures s'.fpga.firstRun == s.fpga.firstRun && s'.mcu.firstRun == s.mcu.firstRun
  {
    hide In, Out, Sent, Taken, ValidSizes, ValidSender, ValidReceiver, Work, Closing, Timely, Settled, Prompt;
    NoSighupYet(s);
    if s.phase.FpgaIn? {
      InWork(s.mcu, s.fpga, s.mcuCopy, s.fpgaCopy, s.wire);
      InFrame(s.fpga, s.wire);
    } else {
      InWork(s.fpga, s.mcu, s.fpgaCopy, s.mcuCopy, s.wire);
      InFrame(s.mcu, s.wire);
    }
  }

  /** `OutWork`, for every state of the side. */
  lemma OutHalf(e: Endpoint, copy: seq<seq<byte>>, n: nat)
    requires Side(e, copy) && !e.vars.acknowledgeRequested && Out(e).Ok?
    requires Choose(e).Shutdown? ==> None(e.tx.transfer)
    requires e.vars.sentComShutdown ==> None(e.sync)
    requires Work(e) <= n
    ensures Work(Out(e).value.0) <= Less(n, !e.firstRun)
    ensures !Out(e).value.0.firstRun
  {
    hide Out, Choose, Work, Exclusive, Copied, ValidSizes, ValidSender, ValidReceiver, None;
    OutFrame(e);
    WorkLeft(e, copy);
    if e.firstRun {
      PowerOnWork(e);
    } else {
      OutWork(e, copy);
    }
  }

  lemma PowerOnWork(e: Endpoint)
    requires Valid(e) && e.firstRun && !e.vars.acknowledgeRequested
    ensures Out(e).Ok? && Work(Out(e).value.0) == Work(e)
  {
    hide ValidSender, ValidReceiver, Sum, SetSignals;
    assert Loads(Out(e).value.0) == Loads(e);
  }

  lemma OutHalfWork(s: System, s': System, f: nat, m: nat)
    requires Turned(s, s') && AtMost(s, f, m) && (s.phase.FpgaOut? || s.phase.McuOut?)
    ensures AtMost(s', if s.phase.FpgaOut? then Less(f, !s.fpga.firstRun) else f,
                       if s.phase.McuOut? then Less(m, !s.mcu.firstRun) else m)
    ensures s'.phase == Following(s.phase)
    ensures s'.fpga.firstRun == (s.fpga.firstRun && !s.phase.FpgaOut?)
    ensures s'.mcu.firstRun == (s.mcu.firstRun && !s.phase.McuOut?)
  {
    hide In, Out, Choose, Side, Taken, ValidSizes, ValidSender, ValidReceiver, Work, Closing, None,
         NarrowSystem, Unstopped, Less;
    if s.phase.FpgaOut? {
      TakenFlags(s.mcu, s.fpga, s.mcuCopy, s.fpgaCopy);
      OutHalf(s.fpga, s.fpgaCopy, f);
    } else {
      TakenFlags(s.fpga, s.mcu, s.fpgaCopy, s.mcuCopy);
      OutHalf(s.mcu, s.mcuCopy, m);
    }
  }

  /** After its sighup nothing is left to be sent. */
  lemma StoppedWork(s: System)
    requires Driven(s) && Stopped(s)
    ensures AtMost(s, 0, 0)
    ensures !s.fpga.firstRun && !s.mcu.firstRun
    ensures ValidSystem(s) && AtRest(s.fpga) && AtRest(s.mcu)
  {
    hide Sent, Taken, Work, Settled, Prompt;
    EndsAtRest(s);
    InvSides(s);
    WorkLeft(s.fpga, s.fpgaCopy);
    WorkLeft(s.mcu, s.mcuCopy);
  }

  lemma InvSides(s: System)
    requires Inv(s)
    ensures Side(s.fpga, s.fpgaCopy) && Side(s.mcu, s.mcuCopy)
    ensures s.phase.FpgaIn? || s.phase.FpgaOut? ==> s.mcu.firstRun ==> s.fpga.firstRun
    ensures s.phase.McuIn? || s.phase.McuOut? ==> s.fpga.firstRun ==> s.mcu.firstRun
  {
    hide Side, Synced, Coherent, Grants, Flight, Handshake, Blank;
  }

  /** One half turn and the bounds on what is left. */
  lemma HalfTurnWork(s: System, f: nat, m: nat)
    requires Driven(s) && AtMost(s, f, m)
    ensures Go(s, 1).Ok?
    ensures var s' := Go(s, 1).value;
            && Driven(s')
            && (if Stopped(s) then s' == s && AtMost(s, 0, 0) && !s.fpga.firstRun && !s.mcu.firstRun
                else
                  && Turned(s, s')
                  && s'.phase == Following(s.phase)
                  && AtMost(s', if s.phase.FpgaOut? then Less(f, !s.fpga.firstRun) else f,
                                if s.phase.McuOut? then Less(m, !s.mcu.firstRun) else m)
                  && s'.fpga.firstRun == (s.fpga.firstRun && !s.phase.FpgaOut?)
                  && s'.mcu.firstRun == (s.mcu.firstRun && !s.phase.McuOut?))
  {
    hide Driven, AtMost, Step, Timely, ValidSystem, Less, Go;
    DrivenTurn(s);
    var s' := Go(s, 1).value;
    assert ValidSystem(s) by { DrivenIsValid(s); }
    if Stopped(s) {
      StoppedWork(s);
    } else {
      DrivenIsValid(s');
      if s.phase.FpgaIn? || s.phase.McuIn? {
        InHalfWork(s, s', f, m);
      } else {
        OutHalfWork(s, s', f, m);
      }
    }
  }

  lemma DrivenIsValid(s: System)
    requires Driven(s)
    ensures Inv(s) && ValidSystem(s)
  {
    hide Inv, Settled, Prompt;
    InvIsValid(s);
  }

  // ----- Everything is delivered -----

  /** Power-on has been sent by both sides. */
  predicate Running(s: System) {
    !s.fpga.firstRun && !s.mcu.firstRun
  }

  /** Four half turns: each side writes once. */
  lemma Round(s: System, f: nat, m: nat)
    requires Driven(s) && AtMost(s, f, m)
    ensures Go(s, 4).Ok?
    ensures var t := Go(s, 4).value;
            && Driven(t) && Running(t)
            && (if Running(s) then AtMost(t, Less(f, true), Less(m, true)) else AtMost(t, f, m))
            && (Stopped(t) || t.phase == s.phase)
  {
    hide Driven, Turned, Go, Work, ValidSystem;
    var f1, m1 := OneHalf(s, f, m);
    var s1 := Go(s, 1).value;
    var f2, m2 := OneHalf(s1, f1, m1);
    var s2 := Go(s1, 1).value;
    var f3, m3 := OneHalf(s2, f2, m2);
    var s3 := Go(s2, 1).value;
    var f4, m4 := OneHalf(s3, f3, m3);
    GoOn(s, 1, 1);
    GoOn(s, 2, 1);
    GoOn(s, 3, 1);
  }

  lemma OneHalf(s: System, f: nat, m: nat) returns (f': nat, m': nat)
    requires Driven(s) && AtMost(s, f, m)
    ensures Go(s, 1).Ok?
    ensures var s' := Go(s, 1).value;
            && Driven(s') && AtMost(s', f', m')
            && (if Stopped(s) then s' == s && f' == 0 && m' == 0 && Running(s)
                else
                  && s'.phase == Following(s.phase)
                  && f' == (if s.phase.FpgaOut? then Less(f, !s.fpga.firstRun) else f)
                  && m' == (if s.phase.McuOut? then Less(m, !s.mcu.firstRun) else m)
                  && s'.fpga.firstRun == (s.fpga.firstRun && !s.phase.FpgaOut?)
                  && s'.mcu.firstRun == (s.mcu.firstRun && !s.phase.McuOut?))
  {
    hide Driven, Turned, Go, AtMost;
    HalfTurnWork(s, f, m);
    f', m' := f, m;
    if Stopped(s) {
      f', m' := 0, 0;
    } else if s.phase.FpgaOut? {
      f' := Less(f, !s.fpga.firstRun);
    } else if s.phase.McuOut? {
      m' := Less(m, !s.mcu.firstRun);
    }
  }

  lemma {:induction false} Rounds(s: System, k: nat)
    requires Driven(s) && Running(s) && AtMost(s, k, k)
    ensures Go(s, 4 * k).Ok?
    ensures Driven(Go(s, 4 * k).value) && Running(Go(s, 4 * k).value) && AtMost(Go(s, 4 * k).value, 0, 0)
    decreases k
  {
    hide Driven, AtMost, Go;
    if k == 0 {
      assert Go(s, 0) == Ok(s) by { GoNowhere(s); }
    } else {
      Round(s, k, k);
      Rounds(Go(s, 4).value, k - 1);
      GoOn(s, 4, 4 * (k - 1));
    }
  }

  lemma {:induction false} IdleFor(s: System, n: nat)
    requires Driven(s) && Running(s) && AtMost(s, 0, 0)
    ensures Go(s, n).Ok?
    ensures Driven(Go(s, n).value) && Running(Go(s, n).value) && AtMost(Go(s, n).value, 0, 0)
    decreases n
  {
    hide Driven, AtMost, Go;
    GoNowhere(s);
    if n > 0 {
      var f, m := OneHalf(s, 0, 0);
      IdleFor(Go(s, 1).value, n - 1);
      GoOn(s, 1, n - 1);
    }
  }

  lemma WorkDone(s: System)
    requires Driven(s) && AtMost(s, 0, 0)
    ensures None(s.fpga.sync) && None(s.fpga.tx.transfer) && None(s.mcu.sync) && None(s.mcu.tx.transfer)
    ensures Side(s.fpga, s.fpgaCopy) && Side(s.mcu, s.mcuCopy)
    ensures !s.fpga.vars.acknowledgeRequested && !s.mcu.vars.acknowledgeRequested
  {
    hide InStep, Closing, Work, Exclusive, Copied, ValidSizes, ValidSender, ValidReceiver, Settled, Prompt;
    InvSides(s);
    WorkLeft(s.fpga, s.fpgaCopy);
    WorkLeft(s.mcu, s.mcuCopy);
    NotRequesting(s.fpga, s.fpgaCopy);
    NotRequesting(s.mcu, s.mcuCopy);
  }

  lemma NotRequesting(e: Endpoint, copy: seq<seq<byte>>)
    requires Side(e, copy) && None(e.sync)
    ensures !e.vars.acknowledgeRequested
  {
    hide Exclusive, Copied, ValidSender, ValidReceiver, Blank, RequestBitClear;
  }

  lemma OutRest(x: Endpoint, y: Endpoint, copyX: seq<seq<byte>>, copyY: seq<seq<byte>>)
    requires Taken(x, y, copyX, copyY)
    requires None(x.tx.transfer) && None(y.tx.transfer) && !x.vars.acknowledgeRequested
    ensures None(x.rx.readLock) && None(y.rx.readLock)
  {
    hide Synced, Coherent, Blank, ValidSizes, ValidSender, ValidReceiver, Exclusive, Copied;
    assert y.rx.readLock == Grants(x);
  }

  /** With nothing left to send, the next half turn finds or leaves both sides at rest. */
  lemma RestAfter(s: System)
    requires Driven(s) && Running(s) && AtMost(s, 0, 0)
    ensures Go(s, 1).Ok?
    ensures var s' := Go(s, 1).value;
            && ValidSystem(s') && AtRest(s'.fpga) && AtRest(s'.mcu)
            && s'.fpga.objects == s'.mcu.objects
  {
    hide Driven, AtMost, Step, Go, Taken, Sent, Side, Timely, Work, AtRest, Valid, Closing;
    HalfTurnWork(s, 0, 0);
    var s' := Go(s, 1).value;
    DrivenIsValid(s);
    DrivenIsValid(s');
    if Stopped(s) {
      StoppedWork(s);
    } else {
      WorkDone(s);
      WorkDone(s');
      match s.phase
      case FpgaIn => InRests(s');
      case McuIn => InRests(s');
      case FpgaOut => OutRests(s, s');
      case McuOut => OutRests(s, s');
    }
    MirrorsCohere(s');
    assert None(s'.fpga.rx.readLock) && None(s'.mcu.rx.readLock) by { RestUnlocked(s'.fpga); RestUnlocked(s'.mcu); }
    assert None(s'.fpga.sync) && None(s'.mcu.sync) by { RestUnlocked(s'.fpga); RestUnlocked(s'.mcu); }
  }

  lemma RestUnlocked(e: Endpoint)
    requires Valid(e) && AtRest(e)
    ensures None(e.rx.readLock) && None(e.sync)
  {
    hide Valid, None;
  }

  lemma InRests(s: System)
    requires Inv(s) && (s.phase.FpgaOut? || s.phase.McuOut?)
    requires None(s.fpga.sync) && None(s.fpga.tx.transfer) && None(s.mcu.sync) && None(s.mcu.tx.transfer)
    requires !s.fpga.vars.acknowledgeRequested && !s.mcu.vars.acknowledgeRequested
    ensures ValidSystem(s) && AtRest(s.fpga) && AtRest(s.mcu)
  {
    hide Taken, Sent, None, ValidSizes, ValidSender, ValidReceiver, Closing, AtRest;
    if s.phase.FpgaOut? {
      OutRest(s.mcu, s.fpga, s.mcuCopy, s.fpgaCopy);
      UnlockedTaken(s.mcu, s.fpga, s.mcuCopy, s.fpgaCopy);
    } else {
      OutRest(s.fpga, s.mcu, s.fpgaCopy, s.mcuCopy);
      UnlockedTaken(s.fpga, s.mcu, s.fpgaCopy, s.mcuCopy);
    }
  }

  lemma OutRests(s: System, s': System)
    requires Turned(s, s') && Running(s) && (s.phase.FpgaOut? || s.phase.McuOut?)
    requires None(s.fpga.sync) && None(s.fpga.tx.transfer) && None(s.mcu.sync) && None(s.mcu.tx.transfer)
    requires !s.fpga.vars.acknowledgeRequested && !s.mcu.vars.acknowledgeRequested
    requires None(s'.fpga.sync) && None(s'.mcu.sync)
    ensures ValidSystem(s') && AtRest(s'.fpga) && AtRest(s'.mcu)
  {
    hide Taken, Sent, None, ValidSizes, ValidSender, ValidReceiver, Closing, AtRest, In, Out, Timely, Settled, Prompt;
    if s.phase.FpgaOut? {
      OutRest(s.mcu, s.fpga, s.mcuCopy, s.fpgaCopy);
      OutFrame(s.fpga);
      UnlockedSent(s'.fpga, s'.mcu, s'.fpgaCopy, s'.mcuCopy, s'.wire);
    } else {
      OutRest(s.fpga, s.mcu, s.fpgaCopy, s.mcuCopy);
      OutFrame(s.mcu);
      UnlockedSent(s'.mcu, s'.fpga, s'.mcuCopy, s'.fpgaCopy, s'.wire);
    }
  }

  lemma ComesToRest(s: System, k: nat, n: nat)
    requires Driven(s) && AtMost(s, k, k)
    requires n > 4 * k + (if Running(s) then 0 else 4)
    ensures Go(s, n).Ok?
    ensures var t := Go(s, n).value;
            && Inv(t) && ValidSystem(t)
            && AtRest(t.fpga) && AtRest(t.mcu)
            && t.fpga.objects == t.mcu.objects
    decreases n
  {
    hide Driven, AtMost, Go, AtRest, ValidSystem, Inv, Running;
    if Running(s) {
      Rounds(s, k);
      var u := Go(s, 4 * k).value;
      var r := n - 4 * k - 1;
      IdleFor(u, r);
      RestAfter(Go(u, r).value);
      GoOn(s, 4 * k, r);
      GoOn(s, 4 * k + r, 1);
      var f, m := OneHalf(Go(u, r).value, 0, 0);
      DrivenIsValid(Go(s, n).value);
    } else {
      Round(s, k, k);
      ComesToRest(Go(s, 4).value, k, n - 4);
      GoOn(s, 4, n - 4);
    }
  }

  lemma RestIsUncontested(s: System, j: nat)
    requires ValidSystem(s) && AtRest(s.fpga)
    ensures !Contested(s, j)
  {
    hide ValidReceiver;
  }

  lemma RestIsOutcome(s: System, n: nat)
    requires Driven(s) && ValidSystem(s) && Go(s, n).Ok? && ValidSystem(Go(s, n).value)
    requires AtRest(Go(s, n).value.fpga) && Go(s, n).value.fpga.objects == Go(s, n).value.mcu.objects
    ensures Outcome(s, Go(s, n).value)
  {
    hide Inv, Driven, Go, AtRest, Stands, Contested, ValidSender, ValidReceiver;
    var t := Go(s, n).value;
    forall j | 0 <= j < |s.fpga.objects|
      ensures |t.fpga.objects| == |s.fpga.objects|
      ensures Stands(s, Fpga, j) ==> t.fpga.objects[j] == s.fpga.objects[j]
      ensures Stands(s, Mcu, j) ==> t.fpga.objects[j] == s.mcu.objects[j]
      ensures t.fpga.objects[j] == s.fpga.objects[j] || t.fpga.objects[j] == s.mcu.objects[j]
    {
      GoValues(s, n, j);
      assert Inv(s) by { DrivenIsValid(s); }
      EitherStands(s, j);
      RestIsUncontested(t, j);
    }
    GoSizes(s, n);
  }

  lemma {:induction false} GoSizes(s: System, n: nat)
    requires Driven(s) && ValidSystem(s)
    ensures Go(s, n).Ok? && ValidSystem(Go(s, n).value)
    ensures |Go(s, n).value.fpga.objects| == |s.fpga.objects|
    decreases n
  {
    hide Inv, Settled, Prompt, Go, Enabled, Next;
    GoNowhere(s);
    if n > 0 {
      DrivenTurn(s);
      GoOn(s, 1, n - 1);
      var s' := Go(s, 1).value;
      DrivenIsValid(s');
      if Enabled(s, HalfTurn) {
        StepSizes(s, HalfTurn, s');
        GoSizes(s', n - 1);
      } else {
        GoSizes(s, n - 1);
      }
    }
  }

  /** Convergence: with no more local writes and com_shutdown in time, a link with at most k bytes
      left on each side has delivered everything after 4k half turns and one more (four more if a
      side has not even sent power-on), and stays at rest. Both memories then hold, for every object,
      the copy that stood, which is that of the side that wanted to send it; and for an object both
      wanted to send, one of the two. */
  lemma Converges(s: System, k: nat, n: nat)
    requires Driven(s) && AtMost(s, k, k)
    requires n > 4 * k + (if Running(s) then 0 else 4)
    ensures Go(s, n).Ok?
    ensures var t := Go(s, n).value;
            && Inv(t) && ValidSystem(t)
            && AtRest(t.fpga) && AtRest(t.mcu)
            && t.fpga.objects == t.mcu.objects && Outcome(s, t)
  {
    hide Driven, AtMost, Go, AtRest, ValidSystem, Inv, Running, Outcome;
    DrivenIsValid(s);
    ComesToRest(s, k, n);
    RestIsOutcome(s, n);
  }
}
