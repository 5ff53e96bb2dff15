/** The resolver in front of each side: which local writes it lets through, and when it aborts. It
    justifies the link's own condition on local writes. A side's clients and resolver run in threads
    that are joined before the side itself is destroyed. */
module Resolver {
  import opened Results
  import opened Bits
  import opened Endpoint
  import opened Link
  import opened Pair
  import opened Mirror
  import opened Safety
  import opened Shutdown
  import opened Interrupt

  /** What `write_ack` and `write_fault` tell about the last write of an object. */
  datatype Answer = Open | Succeeded | Canceled

  /** What `read_ack` and `read_fault` tell about the last read of an object. */
  datatype ReadAnswer = NoRead | ReadDone | Faulted

  /** One side: whether its clients and resolver still run, `pending_write_request`, the answers not
      resolved yet, and `read_started_id`. */
  datatype Desk = Desk(
    live: bool,
    pending: seq<bool>,
    answers: seq<Answer>,
    started: seq<bool>,
    readAnswers: seq<ReadAnswer>)

  datatype Guarded = Guarded(link: System, fpga: Desk, mcu: Desk)

  datatype Failure =
    | PendingWriteRequest
    | ObjectWriteCanceledByIncomingRead
    | ServiceInterruptedByComShutdown
    | LinkAborted(error: Error)

  /** `Join` is the end of the clients and the resolver of a side. */
  datatype Event = Act(action: Action) | Resolve(role: Role, id: nat) | Join(role: Role)

  function Begin(objects: seq<seq<byte>>, wire: byte): Guarded {
    Guarded(Init(objects, wire), Free(), Free())
  }

  function Free(): (d: Desk)
    ensures Shaped(d) && d.live
    ensures forall j :: 0 <= j < NUM_IDS ==>
              !d.pending[j] && d.answers[j].Open? && !d.started[j] && d.readAnswers[j].NoRead?
  {
    var off := seq(NUM_IDS, _ => false);
    Desk(true, off, seq(NUM_IDS, _ => Open), off, seq(NUM_IDS, _ => NoRead))
  }

  function DeskOf(g: Guarded, role: Role): Desk {
    if role.Fpga? then g.fpga else g.mcu
  }

  predicate Shaped(d: Desk) {
    |d.pending| == |d.answers| == |d.started| == |d.readAnswers| == NUM_IDS
  }

  predicate Raised(flags: seq<bool>, j: nat) {
    j < |flags| && flags[j]
  }

  /** `emit_sent` answers a finished transfer, and `emit_readlocked` a request it withdraws. */
  function Answered(e: Endpoint, e': Endpoint, d: Desk): (d': Desk)
    requires Shaped(d)
    ensures Shaped(d') && d' == d.(answers := d'.answers)
    ensures forall j :: 0 <= j < NUM_IDS ==> d'.answers[j] == AnswerTo(e, e', j, d.answers[j])
  {
    d.(answers := seq(NUM_IDS, j requires 0 <= j < NUM_IDS => AnswerTo(e, e', j, d.answers[j])))
  }

  function AnswerTo(e: Endpoint, e': Endpoint, j: nat, before: Answer): Answer {
    if Raised(e.tx.transfer, j) && !Raised(e'.tx.transfer, j) then Succeeded
    else if Raised(e.sync, j) && !Raised(e'.sync, j) && !Raised(e'.tx.transfer, j) then Canceled
    else before
  }

  /** `emit_readlocked` starts a read, and `emit_received` ends it and answers. */
  function Served(e: Endpoint, e': Endpoint, d: Desk): (d': Desk)
    requires Shaped(d)
    ensures Shaped(d') && d' == d.(started := d'.started, readAnswers := d'.readAnswers)
    ensures forall j :: 0 <= j < NUM_IDS ==>
              && d'.started[j] == StartedAfter(e, e', j, d.started[j])
              && d'.readAnswers[j] == ReadAnswerTo(e, e', j, d.readAnswers[j])
  {
    d.(started := seq(NUM_IDS, j requires 0 <= j < NUM_IDS => StartedAfter(e, e', j, d.started[j])),
       readAnswers := seq(NUM_IDS, j requires 0 <= j < NUM_IDS => ReadAnswerTo(e, e', j, d.readAnswers[j])))
  }

  predicate StartedAfter(e: Endpoint, e': Endpoint, j: nat, before: bool) {
    if Raised(e.rx.readLock, j) != Raised(e'.rx.readLock, j) then Raised(e'.rx.readLock, j) else before
  }

  /** A fault that has not been resolved stays. */
  function ReadAnswerTo(e: Endpoint, e': Endpoint, j: nat, before: ReadAnswer): ReadAnswer {
    if Raised(e.rx.readLock, j) && !Raised(e'.rx.readLock, j) && !before.Faulted? then ReadDone else before
  }

  /** `emit_interrupted`: a fault for every read that has been started. */
  function Interrupted(d: Desk): (d': Desk)
    requires Shaped(d)
    ensures Shaped(d') && d' == d.(started := d'.started, readAnswers := d'.readAnswers)
    ensures forall j :: 0 <= j < NUM_IDS ==>
              !d'.started[j] && d'.readAnswers[j] == (if d.started[j] then Faulted else d.readAnswers[j])
  {
    d.(started := seq(NUM_IDS, _ => false),
       readAnswers := seq(NUM_IDS, j requires 0 <= j < NUM_IDS => if d.started[j] then Faulted else d.readAnswers[j]))
  }

  /** `stop_notifier` is called: from outside on the FPGA, by com_shutdown on the MCU. */
  predicate Stops(e: Endpoint, e': Endpoint, a: Action) {
    if e.role.Fpga? then a.Notify? else !e.vars.receivedComShutdown && e'.vars.receivedComShutdown
  }

  /** The desk of one side after a step of the link. */
  function After(e: Endpoint, e': Endpoint, d: Desk, a: Action): (d': Desk)
    requires Shaped(d)
    ensures Shaped(d')
  {
    var served := if Stops(e, e', a) then Interrupted(d) else Served(e, e', d);
    Asked(Answered(e, e', served), a, e.role)
  }

  /** What the threads may do: a client asks for an object that exists and is not being received, and
      asks only while it runs; the FPGA is told to stop by its destructor, after the thread of its
      resolver, and those of its clients before it, have been joined. */
  predicate Proper(g: Guarded, ev: Event)
    requires ValidSystem(g.link)
  {
    match ev
    case Act(LocalWrite(role, id, value)) =>
      var e := SideOf(g.link, role);
      id < |e.objects| && |value| == |e.objects[id]| && !e.rx.readLock[id] && DeskOf(g, role).live
    case Act(Notify) => !g.fpga.live
    case Act(a) => Enabled(g.link, a)
    case Resolve(role, id) => id < NUM_IDS && DeskOf(g, role).live
    case Join(role) => DeskOf(g, role).live
  }

  /** The guard: an earlier write of the object is pending. */
  predicate Refused(g: Guarded, ev: Event)
    requires Shaped(g.fpga) && Shaped(g.mcu)
  {
    ev.Act? && ev.action.LocalWrite? && ev.action.id < NUM_IDS && DeskOf(g, ev.action.role).pending[ev.action.id]
  }

  /** What the resolver does with a write it lets through, whatever the endpoint is doing. */
  function Overwritten(e: Endpoint, id: nat, value: seq<byte>): Endpoint
    requires id < |e.objects| && id < |e.sync|
  {
    e.(objects := e.objects[id := value], sync := e.sync[id := true])
  }

  /** A step of the link, with local writes as the resolver makes them. */
  function Acted(s: System, a: Action): Result<System, Error>
    requires ValidSystem(s)
    requires if a.LocalWrite? then a.id < |SideOf(s, a.role).objects| else Enabled(s, a)
  {
    match a
    case LocalWrite(Fpga, id, value) => Ok(s.(fpga := Overwritten(s.fpga, id, value)))
    case LocalWrite(Mcu, id, value) => Ok(s.(mcu := Overwritten(s.mcu, id, value)))
    case _ => Step(s, a)
  }

  /** `resolve`: the read first, then the write. */
  function Resolved(d: Desk, j: nat): Result<Desk, Failure>
    requires Shaped(d) && j < NUM_IDS
  {
    if d.readAnswers[j].Faulted? then Err(ServiceInterruptedByComShutdown)
    else
      var d' := d.(readAnswers := d.readAnswers[j := NoRead]);
      match d.answers[j]
      case Open => Ok(d')
      case Succeeded => Ok(d'.(pending := d.pending[j := false], answers := d.answers[j := Open]))
      case Canceled => Err(ObjectWriteCanceledByIncomingRead)
  }

  function Asked(d: Desk, a: Action, role: Role): (d': Desk)
    requires Shaped(d)
    ensures Shaped(d') && d' == d.(pending := d'.pending)
  {
    if a.LocalWrite? && a.role == role && a.id < NUM_IDS then d.(pending := d.pending[a.id := true]) else d
  }

  predicate Formed(g: Guarded) {
    ValidSystem(g.link) && Shaped(g.fpga) && Shaped(g.mcu)
  }

  /** The clients, the resolvers and the link. */
  function Next(g: Guarded, ev: Event): Result<Guarded, Failure>
    requires Formed(g) && Proper(g, ev)
  {
    match ev
    case Resolve(Fpga, j) =>
      var d :- Resolved(g.fpga, j);
      Ok(g.(fpga := d))
    case Resolve(Mcu, j) =>
      var d :- Resolved(g.mcu, j);
      Ok(g.(mcu := d))
    case Join(Fpga) => Ok(g.(fpga := g.fpga.(live := false)))
    case Join(Mcu) => Ok(g.(mcu := g.mcu.(live := false)))
    case Act(a) =>
      if Refused(g, ev) then Err(PendingWriteRequest)
      else
        match Acted(g.link, a)
        case Err(error) => Err(LinkAborted(error))
        case Ok(s') =>
          Ok(Guarded(s', After(g.link.fpga, s'.fpga, g.fpga, a), After(g.link.mcu, s'.mcu, g.mcu, a)))
  }

  /** A write is pending exactly while it is wanted or its answer has not been resolved, and it has no
      answer while it is wanted. */
  ghost predicate Covered(e: Endpoint, d: Desk) {
    && Valid(e) && Shaped(d)
    && (forall j :: 0 <= j < NUM_IDS ==> (d.pending[j] <==> Wants(e, j) || !d.answers[j].Open?))
    && (forall j :: 0 <= j < NUM_IDS && Wants(e, j) ==> d.answers[j].Open?)
  }

  /** The reads started are those of the read-locked objects. */
  predicate Tracks(e: Endpoint, d: Desk) {
    && Shaped(d) && |e.rx.readLock| == NUM_IDS
    && forall j :: 0 <= j < NUM_IDS ==> (d.started[j] <==> e.rx.readLock[j])
  }

  predicate NoFault(d: Desk) {
    forall j :: 0 <= j < |d.readAnswers| ==> !d.readAnswers[j].Faulted?
  }

  /** The FPGA leaves only after its resolver; the MCU has nothing to interrupt. */
  ghost predicate ReadsInv(g: Guarded) {
    && (g.fpga.live ==> NoFault(g.fpga) && !Leaving(g.link.fpga))
    && Tracks(g.link.mcu, g.mcu) && NoFault(g.mcu)
  }

  ghost predicate GuardInv(g: Guarded) {
    && Inv(g.link) && Formed(g)
    && Covered(g.link.fpga, g.fpga) && Covered(g.link.mcu, g.mcu)
    && ReadsInv(g)
  }

  /** A write that passes the guard is one the link takes. */
  lemma GuardIsWritable(g: Guarded, ev: Event)
    requires GuardInv(g) && Proper(g, ev) && !Refused(g, ev)
    ensures ev.Act? ==> Enabled(g.link, ev.action) && Acted(g.link, ev.action) == Step(g.link, ev.action)
  {
    hide Inv, ValidSender, ValidReceiver;
    if ev.Act? && ev.action.LocalWrite? {
      var e, d := SideOf(g.link, ev.action.role), DeskOf(g, ev.action.role);
      assert !Wants(e, ev.action.id);
    }
  }

  // ----- The guard is kept -----

  /** What a step does to the requests and transfers of one side. */
  predicate Progresses(e: Endpoint, e': Endpoint, a: Action, role: Role)
  {
    && Valid(e) && Valid(e')
    && (forall j :: 0 <= j < NUM_IDS && Wants(e', j) ==> Wants(e, j) || (a.LocalWrite? && a.role == role && a.id == j))
    && (a.LocalWrite? && a.role == role && a.id < NUM_IDS ==> Wants(e', a.id))
    && (forall j :: 0 <= j < NUM_IDS && e.tx.transfer[j] && !e'.tx.transfer[j] ==> !Wants(e', j))
  }

  lemma InSync(x: Endpoint, y: Endpoint, copyX: seq<seq<byte>>, copyY: seq<seq<byte>>, b: byte, j: nat)
    requires Sent(x, y, copyX, copyY, b) && !y.vars.receivedSighup && j < NUM_IDS
    ensures In(y, b).Ok? && (In(y, b).value.sync[j] ==> y.sync[j])
  {
    hide Synced, Flight, Handshake, Coherent, Copied, ValidSizes, ValidSender, ValidReceiver;
    if !y.firstRun {
      hide In;
      InEffect(x, y, copyX, copyY, b);
    }
  }

  lemma HalfTurnSync(s: System, s': System, j: nat)
    requires Inv(s) && Safety.Next(s, HalfTurn, s') && Inv(s') && j < NUM_IDS
    ensures s'.fpga.sync[j] ==> s.fpga.sync[j]
    ensures s'.mcu.sync[j] ==> s.mcu.sync[j]
  {
    hide In, Out, Synced, Flight, Handshake, Exclusive, Copied, Coherent, ValidSizes, ValidSender,
         ValidReceiver, Blank, RequestBitClear, Timely, Closing, None;
    match s.phase
    case FpgaIn =>
      NoSighupYet(s);
      InSync(s.mcu, s.fpga, s.mcuCopy, s.fpgaCopy, s.wire, j);
    case FpgaOut => OutTransfers(s.fpga);
    case McuIn =>
      NoSighupYet(s);
      InSync(s.fpga, s.mcu, s.fpgaCopy, s.mcuCopy, s.wire, j);
    case McuOut => OutTransfers(s.mcu);
  }

  /** A finished transfer leaves nothing of the object behind. */
  lemma FinishedIsNotWanted(e: Endpoint, e': Endpoint, copy: seq<seq<byte>>, j: nat)
    requires Side(e, copy) && Valid(e') && j < NUM_IDS
    requires e'.sync[j] ==> e.sync[j]
    ensures e.tx.transfer[j] && !e'.tx.transfer[j] ==> !Wants(e', j)
  {
    hide Copied, ValidSizes, ValidSender, ValidReceiver;
  }

  lemma InvSides(s: System)
    requires Inv(s)
    ensures Side(s.fpga, s.fpgaCopy) && Side(s.mcu, s.mcuCopy) && Valid(s.fpga) && Valid(s.mcu)
    ensures |s.fpga.tx.transfer| == |s.mcu.tx.transfer| == NUM_IDS
  {
    hide Synced, Coherent, Grants, Flight, Handshake, Blank, Exclusive, Copied, RequestBitClear;
  }

  lemma WrittenIsWanted(s: System, a: Action, s': System)
    requires ValidSystem(s) && Enabled(s, a) && Step(s, a) == Ok(s') && a.LocalWrite? && a.id < NUM_IDS
    ensures Valid(SideOf(s', a.role)) && Wants(SideOf(s', a.role), a.id)
  {
    hide ValidSender, ValidReceiver;
  }

  lemma StepProgresses(s: System, a: Action, s': System)
    requires Inv(s) && Safety.Next(s, a, s')
    ensures Inv(s')
    ensures Progresses(s.fpga, s'.fpga, a, Fpga) && Progresses(s.mcu, s'.mcu, a, Mcu)
  {
    hide Inv, Step, Timely, Side, Valid, Wants;
    if a.LocalWrite? && a.id < NUM_IDS {
      WrittenIsWanted(s, a, s');
    }
    StepKeeps(s, a);
    InvSides(s);
    InvSides(s');
    forall j | 0 <= j < NUM_IDS
      ensures Wants(s'.fpga, j) ==> Wants(s.fpga, j) || (a.LocalWrite? && a.role.Fpga? && a.id == j)
      ensures Wants(s'.mcu, j) ==> Wants(s.mcu, j) || (a.LocalWrite? && a.role.Mcu? && a.id == j)
    {
      StepWants(s, a, s', j);
    }
    forall j | 0 <= j < NUM_IDS
      ensures s.fpga.tx.transfer[j] && !s'.fpga.tx.transfer[j] ==> !Wants(s'.fpga, j)
      ensures s.mcu.tx.transfer[j] && !s'.mcu.tx.transfer[j] ==> !Wants(s'.mcu, j)
    {
      if a.HalfTurn? {
        HalfTurnSync(s, s', j);
        FinishedIsNotWanted(s.fpga, s'.fpga, s.fpgaCopy, j);
        FinishedIsNotWanted(s.mcu, s'.mcu, s.mcuCopy, j);
      } else {
        OthersKeepTransfers(s, a, s');
      }
    }
  }

  lemma OthersKeepTransfers(s: System, a: Action, s': System)
    requires ValidSystem(s) && Enabled(s, a) && Step(s, a) == Ok(s') && !a.HalfTurn?
    ensures s'.fpga.tx == s.fpga.tx && s'.mcu.tx == s.mcu.tx
  {
    hide ValidSizes, ValidSender, ValidReceiver;
  }

  lemma CoveredKeeps(e: Endpoint, e': Endpoint, d: Desk, a: Action, role: Role)
    requires Covered(e, d) && Progresses(e, e', a, role)
    requires a.LocalWrite? && a.role == role && a.id < NUM_IDS ==> !d.pending[a.id]
    requires e.role == role
    ensures Covered(e', After(e, e', d, a))
  {
    hide ValidSizes, ValidReceiver, Interrupted, Served, Stops;
    var d' := After(e, e', d, a);
    assert forall j :: 0 <= j < NUM_IDS ==> d'.answers[j] == AnswerTo(e, e', j, d.answers[j]);
    forall j | 0 <= j < NUM_IDS
      ensures d'.pending[j] <==> Wants(e', j) || !d'.answers[j].Open?
      ensures Wants(e', j) ==> d'.answers[j].Open?
    {
      assert Wants(e, j) ==> d.answers[j].Open?;
      assert d.pending[j] <==> Wants(e, j) || !d.answers[j].Open?;
    }
  }

  lemma ResolvedKeeps(e: Endpoint, d: Desk, j: nat)
    requires Covered(e, d) && j < NUM_IDS && Resolved(d, j).Ok?
    ensures Covered(e, Resolved(d, j).value)
  {
    hide ValidSizes, ValidSender, ValidReceiver;
  }

  /** The resolver's own guard makes the link's condition on local writes: the guard is kept, the link
      never aborts, and the only failures are a refused write, a cancelled one and an interrupted read. */
  lemma NextKeeps(g: Guarded, ev: Event)
    requires GuardInv(g) && Proper(g, ev)
    requires ev.Act? ==> Timely(g.link, ev.action)
    ensures match Next(g, ev)
            case Ok(g') =>
              && GuardInv(g')
              && (if ev.Act? then Safety.Next(g.link, ev.action, g'.link) else g'.link == g.link)
              && g'.fpga.live == (g.fpga.live && ev != Join(Fpga)) && g'.mcu.live == (g.mcu.live && ev != Join(Mcu))
            case Err(PendingWriteRequest) => Refused(g, ev)
            case Err(ObjectWriteCanceledByIncomingRead) =>
              ev.Resolve? && ev.id < NUM_IDS && DeskOf(g, ev.role).answers[ev.id].Canceled?
            case Err(ServiceInterruptedByComShutdown) => false
            case Err(LinkAborted(_)) => false
  {
    hide Inv, Step, Timely, ValidSizes, ValidSender, ValidReceiver, Wants, Enabled, Answered, Progresses, Covered;
    hide Acted, Served, Interrupted, Stops, Asked, ReadsInv, After;
    match ev
    case Join(_) =>
      JoinKeeps(g.link.fpga, g.fpga);
      JoinKeeps(g.link.mcu, g.mcu);
      JoinKeepsReads(g, ev.role);
    case Resolve(role, j) =>
      NoFaultToResolve(g, role, j);
      if Resolved(DeskOf(g, role), j).Ok? {
        ResolvedKeeps(SideOf(g.link, role), DeskOf(g, role), j);
        ResolvedKeepsReads(g, role, j);
      }
    case Act(a) =>
      if !Refused(g, ev) {
        GuardIsWritable(g, ev);
        StepKeeps(g.link, a);
        var s' := Step(g.link, a).value;
        StepProgresses(g.link, a, s');
        Roles(g.link);
        CoveredKeeps(g.link.fpga, s'.fpga, g.fpga, a, Fpga);
        CoveredKeeps(g.link.mcu, s'.mcu, g.mcu, a, Mcu);
        InvSides(s');
        assert ValidSystem(s') by { ValidAfter(s'); }
        StepKeepsReads(g, a, s');
        AfterIsLive(g.link.fpga, s'.fpga, g.fpga, a);
        AfterIsLive(g.link.mcu, s'.mcu, g.mcu, a);
      }
  }

  lemma AfterIsLive(e: Endpoint, e': Endpoint, d: Desk, a: Action)
    requires Shaped(d)
    ensures After(e, e', d, a).live == d.live
  {
    hide Served, Interrupted, Answered, Asked, Stops;
  }

  lemma JoinKeepsReads(g: Guarded, role: Role)
    requires ReadsInv(g)
    ensures ReadsInv(g.(fpga := g.fpga.(live := false))) && ReadsInv(g.(mcu := g.mcu.(live := false)))
  {
  }

  lemma NoFaultToResolve(g: Guarded, role: Role, j: nat)
    requires ReadsInv(g) && DeskOf(g, role).live && Shaped(DeskOf(g, role)) && j < NUM_IDS
    ensures !DeskOf(g, role).readAnswers[j].Faulted?
  {
  }

  lemma ResolvedKeepsReads(g: Guarded, role: Role, j: nat)
    requires ReadsInv(g) && Shaped(DeskOf(g, role)) && j < NUM_IDS && Resolved(DeskOf(g, role), j).Ok?
    ensures var d := Resolved(DeskOf(g, role), j).value;
            d.live == DeskOf(g, role).live && ReadsInv(if role.Fpga? then g.(fpga := d) else g.(mcu := d))
  {
  }

  lemma ServedTracks(e: Endpoint, e': Endpoint, d: Desk, a: Action)
    requires Tracks(e, d) && |e'.rx.readLock| == NUM_IDS
    requires Stops(e, e', a) ==> None(e.rx.readLock) && None(e'.rx.readLock)
    ensures Tracks(e', After(e, e', d, a))
    ensures NoFault(d) ==> NoFault(After(e, e', d, a))
  {
    hide Answered, Asked;
    var d' := After(e, e', d, a);
    assert d'.started == (if Stops(e, e', a) then Interrupted(d) else Served(e, e', d)).started;
    assert d'.readAnswers == (if Stops(e, e', a) then Interrupted(d) else Served(e, e', d)).readAnswers;
  }

  lemma ServedWithoutFault(e: Endpoint, e': Endpoint, d: Desk, a: Action)
    requires Shaped(d) && NoFault(d) && !Stops(e, e', a)
    ensures NoFault(After(e, e', d, a))
  {
    hide Answered, Asked, Interrupted;
    assert After(e, e', d, a).readAnswers == Served(e, e', d).readAnswers;
  }

  /** The FPGA's resolver is gone before it is told to stop, and the MCU is told when it receives
      nothing. */
  lemma StepKeepsReads(g: Guarded, a: Action, s': System)
    requires GuardInv(g) && Safety.Next(g.link, a, s') && Proper(g, Act(a)) && Inv(s')
    ensures ReadsInv(Guarded(s', After(g.link.fpga, s'.fpga, g.fpga, a), After(g.link.mcu, s'.mcu, g.mcu, a)))
  {
    hide Inv, Step, Timely, Enabled, Covered, After, Tracks, NoFault, ValidSizes, ValidSender;
    var s := g.link;
    Roles(s);
    AfterIsLive(s.fpga, s'.fpga, g.fpga, a);
    assert |s'.mcu.rx.readLock| == NUM_IDS by { InvSides(s'); }
    if Stops(s.mcu, s'.mcu, a) {
      McuHearsNothingReceived(s, a, s');
    }
    ServedTracks(s.mcu, s'.mcu, g.mcu, a);
    if g.fpga.live {
      OnlyToldToLeave(s, a, s');
      ServedWithoutFault(s.fpga, s'.fpga, g.fpga, a);
    }
  }

  lemma JoinKeeps(e: Endpoint, d: Desk)
    requires Covered(e, d)
    ensures Covered(e, d.(live := false))
  {
    hide ValidSizes, ValidSender, ValidReceiver;
  }

  lemma ValidAfter(s: System)
    requires Inv(s)
    ensures ValidSystem(s)
  {
    hide InStep, Closing;
  }

  lemma BeginInv(objects: seq<seq<byte>>, wire: byte)
    requires ValidSizes(objects)
    ensures GuardInv(Begin(objects, wire))
  {
    hide InStep, Closing;
    InitInv(objects, wire);
    StartWantsNothing(Fpga, objects);
    StartWantsNothing(Mcu, objects);
  }

  lemma StartWantsNothing(role: Role, objects: seq<seq<byte>>)
    requires ValidSizes(objects)
    ensures Valid(Start(role, objects)) && WantsNothing(Start(role, objects))
  {
  }

  /** Every interleaving of clients, resolvers and link. */
  ghost predicate GuardedRun(objects: seq<seq<byte>>, wire: byte, gs: seq<Guarded>, evs: seq<Event>) {
    && ValidSizes(objects)
    && |gs| == |evs| + 1
    && gs[0] == Begin(objects, wire)
    && forall i :: 0 <= i < |evs| ==> GuardedNext(gs[i], evs[i], gs[i + 1])
  }

  ghost predicate GuardedNext(g: Guarded, ev: Event, g': Guarded) {
    Formed(g) && Proper(g, ev) && (ev.Act? ==> Timely(g.link, ev.action)) && Next(g, ev) == Ok(g')
  }

  lemma ExtendGuarded(objects: seq<seq<byte>>, wire: byte, gs: seq<Guarded>, evs: seq<Event>, ev: Event, g': Guarded)
    returns (gs': seq<Guarded>, evs': seq<Event>)
    requires GuardedRun(objects, wire, gs, evs) && GuardedNext(gs[|evs|], ev, g')
    ensures gs' == gs + [g'] && evs' == evs + [ev]
    ensures GuardedRun(objects, wire, gs', evs') && gs'[|evs'|] == g'
  {
    hide GuardedNext, Begin;
    gs', evs' := gs + [g'], evs + [ev];
    forall i | 0 <= i < |evs'|
      ensures GuardedNext(gs'[i], evs'[i], gs'[i + 1])
    {
      if i < |evs| {
        assert GuardedNext(gs[i], evs[i], gs[i + 1]);
      }
    }
  }

  /** Every run under the resolvers' guard is a run of the link: its condition on local writes is no
      assumption, and all that is proved about the link's runs holds behind the resolvers. */
  lemma {:induction false} GuardedRunIsRun(objects: seq<seq<byte>>, wire: byte, gs: seq<Guarded>, evs: seq<Event>)
    returns (ss: seq<System>, acts: seq<Action>)
    requires GuardedRun(objects, wire, gs, evs)
    ensures Run(objects, wire, ss, acts) && ss[|acts|] == gs[|evs|].link
    ensures GuardInv(gs[|evs|])
    ensures forall i :: 0 <= i < |acts| && acts[i].LocalWrite? && acts[i].role.Fpga? ==> Quiet(ss[i], acts[i])
    ensures (forall i :: 0 <= i < |evs| ==> McuQuiet(gs[i], evs[i])) ==> QuietRun(objects, wire, ss, acts)
    decreases |evs|
  {
    hide Next, Formed, Proper, Timely, Begin, GuardInv, Init, Step, Enabled, ValidSystem, Quiet, McuQuiet;
    if evs == [] {
      ss, acts := [Init(objects, wire)], [];
      BeginInv(objects, wire);
      assert gs[0].link == ss[0] by { BeginLink(objects, wire); }
    } else {
      var n := |evs| - 1;
      ss, acts := GuardedRunIsRun(objects, wire, gs[..n + 1], evs[..n]);
      var g, ev, g' := gs[n], evs[n], gs[n + 1];
      assert gs[..n + 1][n] == g && GuardedNext(g, ev, g');
      NextKeeps(g, ev);
      if ev.Act? {
        assert Quiet(ss[|acts|], ev.action) || !McuQuiet(g, ev) by { ActsQuietly(g, ev); }
        assert ev.action.LocalWrite? && ev.action.role.Fpga? ==> Quiet(ss[|acts|], ev.action) by { ActsQuietly(g, ev); }
        ss, acts := ExtendRun(objects, wire, ss, acts, ev.action, g'.link);
      }
      assert forall i :: 0 <= i < n ==> gs[..n + 1][i] == gs[i] && evs[..n][i] == evs[i];
    }
  }

  /** The MCU's clients stop writing once it has sent com_shutdown. */
  predicate McuQuiet(g: Guarded, ev: Event) {
    ev.Act? && ev.action.LocalWrite? && ev.action.role.Mcu? ==> !g.link.mcu.vars.sentComShutdown
  }

  /** The FPGA's clients have stopped by then: their threads have been joined. */
  lemma ActsQuietly(g: Guarded, ev: Event)
    requires GuardInv(g) && Proper(g, ev) && ev.Act?
    ensures ev.action.LocalWrite? && ev.action.role.Fpga? ==> Quiet(g.link, ev.action)
    ensures McuQuiet(g, ev) ==> Quiet(g.link, ev.action)
  {
    hide Inv, Covered, Tracks, NoFault, ValidSizes, ValidSender, ValidReceiver;
  }

  /** Clean shutdown behind the resolvers: that the FPGA's clients are quiet by then is no assumption. */
  lemma CleanClose(objects: seq<seq<byte>>, wire: byte, gs: seq<Guarded>, evs: seq<Event>)
    requires GuardedRun(objects, wire, gs, evs)
    requires forall i :: 0 <= i < |evs| ==> McuQuiet(gs[i], evs[i])
    requires gs[|evs|].link.fpga.vars.sentSighup
    ensures var s := gs[|evs|].link;
            && ValidSystem(s)
            && AtRest(s.fpga) && AtRest(s.mcu)
            && s.fpga.objects == s.mcu.objects
            && (s.phase.FpgaIn? ==> s.mcu.vars.sentSighup && !Enabled(s, HalfTurn))
  {
    hide GuardedNext, QuietRun, McuQuiet, Begin, AtRest, ValidSystem, GuardInv;
    var ss, acts := GuardedRunIsRun(objects, wire, gs, evs);
    CleanShutdown(objects, wire, ss, acts, |acts|);
  }

  // ----- Interrupted reads -----

  /** What `emit_interrupted` does to a resolver that is still there: it aborts on an object if and only
      if that object is being received. */
  lemma InterruptsExactly(e: Endpoint, d: Desk, j: nat)
    requires Tracks(e, d) && NoFault(d) && j < NUM_IDS
    ensures Resolved(Interrupted(d), j) == Err(ServiceInterruptedByComShutdown) <==> e.rx.readLock[j]
  {
  }

  /** Over every run no resolver aborts on an interrupted read: the FPGA's has been joined before the
      FPGA is told to stop, and com_shutdown finds the MCU receiving nothing. */
  lemma NeverInterrupted(objects: seq<seq<byte>>, wire: byte, gs: seq<Guarded>, evs: seq<Event>, role: Role, j: nat)
    requires GuardedRun(objects, wire, gs, evs)
    requires Formed(gs[|evs|]) && Proper(gs[|evs|], Resolve(role, j))
    ensures Next(gs[|evs|], Resolve(role, j)) != Err(ServiceInterruptedByComShutdown)
  {
    hide GuardedNext, Begin, Next, Formed, Proper;
    var ss, acts := GuardedRunIsRun(objects, wire, gs, evs);
    hide GuardInv;
    NextKeeps(gs[|evs|], Resolve(role, j));
  }

  lemma BeginLink(objects: seq<seq<byte>>, wire: byte)
    ensures Begin(objects, wire) == Guarded(Init(objects, wire), Free(), Free())
  {
  }

  // ----- Cancelled writes -----

  predicate NoneCanceled(d: Desk) {
    forall j :: 0 <= j < |d.answers| ==> !d.answers[j].Canceled?
  }

  /** A step that drops no request without a transfer. */
  predicate LosesNothing(e: Endpoint, e': Endpoint) {
    forall j :: 0 <= j < NUM_IDS ==> (Raised(e.sync, j) ==> Raised(e'.sync, j) || Raised(e'.tx.transfer, j))
  }

  lemma InLosesNothing(x: Endpoint, y: Endpoint, copyX: seq<seq<byte>>, copyY: seq<seq<byte>>, b: byte)
    requires Sent(x, y, copyX, copyY, b) && !y.vars.receivedSighup
    requires forall j :: 0 <= j < NUM_IDS ==> !(Wants(x, j) && Wants(y, j))
    ensures In(y, b).Ok? && LosesNothing(y, In(y, b).value)
  {
    hide Synced, Flight, Handshake, Coherent, Copied, ValidSizes, ValidReceiver;
    if !y.firstRun {
      hide In;
      InEffect(x, y, copyX, copyY, b);
      forall j | 0 <= j < NUM_IDS && Raised(y.sync, j)
        ensures Raised(In(y, b).value.sync, j) || Raised(In(y, b).value.tx.transfer, j)
      {
        NoWriteLost(x, y, copyX, copyY, b, j);
      }
    }
  }

  lemma TurnLosesNothing(s: System, s': System)
    requires Inv(s) && Safety.Next(s, HalfTurn, s') && Uncontended(s)
    ensures LosesNothing(s.fpga, s'.fpga) && LosesNothing(s.mcu, s'.mcu)
  {
    hide In, Out, Synced, Flight, Handshake, Exclusive, Copied, Coherent, ValidSizes, ValidSender,
         ValidReceiver, Blank, RequestBitClear, Timely, Closing, None;
    match s.phase
    case FpgaIn =>
      NoSighupYet(s);
      InLosesNothing(s.mcu, s.fpga, s.mcuCopy, s.fpgaCopy, s.wire);
    case FpgaOut => OutTransfers(s.fpga);
    case McuIn =>
      NoSighupYet(s);
      InLosesNothing(s.fpga, s.mcu, s.fpgaCopy, s.mcuCopy, s.wire);
    case McuOut => OutTransfers(s.mcu);
  }

  lemma OthersLoseNothing(s: System, a: Action, s': System)
    requires ValidSystem(s) && Enabled(s, a) && Step(s, a) == Ok(s') && !a.HalfTurn?
    ensures LosesNothing(s.fpga, s'.fpga) && LosesNothing(s.mcu, s'.mcu)
  {
    hide ValidSender, ValidReceiver;
  }

  lemma NothingCanceled(e: Endpoint, e': Endpoint, d: Desk, a: Action, role: Role)
    requires Shaped(d) && NoneCanceled(d) && LosesNothing(e, e')
    requires e.role == role
    ensures NoneCanceled(After(e, e', d, a))
  {
    hide Interrupted, Served, Stops;
  }

  /** The read by which this side grants the peer's request for object j and withdraws its own. */
  predicate LosesTo(s: System, role: Role, j: nat) {
    && (if role.Fpga? then s.phase.FpgaIn? else s.phase.McuIn?)
    && Raised(SideOf(s, role).sync, j)
    && RequestedBy(if role.Fpga? then s.mcu else s.fpga, j)
  }

  predicate CancelsAt(g: Guarded, ev: Event, role: Role, j: nat) {
    ev == Act(HalfTurn) && LosesTo(g.link, role, j)
  }

  predicate Dropped(e: Endpoint, e': Endpoint, j: nat) {
    Raised(e.sync, j) && !Raised(e'.sync, j) && !Raised(e'.tx.transfer, j)
  }

  lemma InDrops(x: Endpoint, y: Endpoint, copyX: seq<seq<byte>>, copyY: seq<seq<byte>>, b: byte, j: nat)
    requires Sent(x, y, copyX, copyY, b) && !y.vars.receivedSighup && j < NUM_IDS
    ensures In(y, b).Ok?
    ensures Dropped(y, In(y, b).value, j) <==> Raised(y.sync, j) && RequestedBy(x, j)
  {
    hide Synced, Flight, Handshake, Coherent, Copied, ValidSizes, ValidReceiver, Exclusive;
    if y.firstRun {
      assert !x.vars.acknowledgeRequested;
    } else {
      hide In;
      WriteLostExactly(x, y, copyX, copyY, b, j);
      InEffect(x, y, copyX, copyY, b);
    }
  }

  /** A step drops a request without a transfer if and only if it is that read. */
  lemma StepDrops(s: System, a: Action, s': System, role: Role, j: nat)
    requires Inv(s) && Safety.Next(s, a, s') && j < NUM_IDS
    ensures Dropped(SideOf(s, role), SideOf(s', role), j) <==> a.HalfTurn? && LosesTo(s, role, j)
  {
    hide In, Out, Sent, Taken, Dropped, Raised, Timely, Closing, ValidSizes, ValidSender, ValidReceiver, RequestedBy;
    if a.HalfTurn? {
      NoSighupYet(s);
      match s.phase
      case FpgaIn =>
        InDrops(s.mcu, s.fpga, s.mcuCopy, s.fpgaCopy, s.wire, j);
        SameDropsNothing(s.mcu, j);
      case FpgaOut =>
        OutTransfers(s.fpga);
        OutDropsNothing(s.fpga, s'.fpga, j);
        SameDropsNothing(s.mcu, j);
      case McuIn =>
        InDrops(s.fpga, s.mcu, s.fpgaCopy, s.mcuCopy, s.wire, j);
        SameDropsNothing(s.fpga, j);
      case McuOut =>
        OutTransfers(s.mcu);
        OutDropsNothing(s.mcu, s'.mcu, j);
        SameDropsNothing(s.fpga, j);
    } else {
      OthersDropNothing(s, a, s', j);
    }
  }

  lemma SameDropsNothing(e: Endpoint, j: nat)
    ensures !Dropped(e, e, j)
  {
  }

  lemma OutDropsNothing(e: Endpoint, e': Endpoint, j: nat)
    requires e'.sync == e.sync
    ensures !Dropped(e, e', j)
  {
  }

  lemma OthersDropNothing(s: System, a: Action, s': System, j: nat)
    requires ValidSystem(s) && Enabled(s, a) && Step(s, a) == Ok(s') && !a.HalfTurn?
    ensures !Dropped(s.fpga, s'.fpga, j) && !Dropped(s.mcu, s'.mcu, j)
  {
    hide ValidSizes, ValidSender, ValidReceiver;
  }

  lemma AnswerAfter(e: Endpoint, e': Endpoint, d: Desk, a: Action, j: nat)
    requires Shaped(d) && j < NUM_IDS
    ensures After(e, e', d, a).answers[j] == AnswerTo(e, e', j, d.answers[j])
  {
    hide Interrupted, Served, Stops, Asked;
  }

  lemma CanceledByAct(s: System, a: Action, s': System, role: Role, j: nat, d: Desk)
    requires Inv(s) && Safety.Next(s, a, s') && Covered(SideOf(s, role), d) && j < NUM_IDS
    ensures After(SideOf(s, role), SideOf(s', role), d, a).answers[j].Canceled? <==>
              d.answers[j].Canceled? || (a.HalfTurn? && LosesTo(s, role, j))
  {
    var e, e' := SideOf(s, role), SideOf(s', role);
    StepDrops(s, a, s', role, j);
    AnswerAfter(e, e', d, a, j);
    SentIsWanted(s, a, s', role, j);
    assert Raised(e.tx.transfer, j) || Raised(e.sync, j) ==> Wants(e, j);
    hide Inv, Safety.Next, After, LosesTo, Raised, ValidSizes, ValidSender, ValidReceiver;
  }

  /** A write becomes cancelled by exactly that read, and stays so. */
  lemma CanceledBy(g: Guarded, ev: Event, g': Guarded, role: Role, j: nat)
    requires GuardInv(g) && GuardedNext(g, ev, g') && j < NUM_IDS
    ensures GuardInv(g')
    ensures DeskOf(g', role).answers[j].Canceled? <==> DeskOf(g, role).answers[j].Canceled? || CancelsAt(g, ev, role, j)
  {
    hide Inv, Step, Timely, Enabled, ReadsInv, After, LosesTo, Acted, Proper, Covered, ValidSystem, Refused;
    NextKeeps(g, ev);
    if ev.Act? {
      GuardIsWritable(g, ev);
      Roles(g.link);
      CanceledByAct(g.link, ev.action, g'.link, role, j, DeskOf(g, role));
    }
  }

  /** A transfer that ends is no dropped request. */
  lemma SentIsWanted(s: System, a: Action, s': System, role: Role, j: nat)
    requires Inv(s) && Safety.Next(s, a, s') && j < NUM_IDS
    ensures Raised(SideOf(s, role).tx.transfer, j) ==> !Dropped(SideOf(s, role), SideOf(s', role), j)
  {
    InvSides(s);
    hide Inv, Safety.Next, Copied, ValidSizes, ValidSender, ValidReceiver, RequestBitClear, Blank;
  }

  /** Over every run: the write of object j has been cancelled if and only if some step has read the
      peer's request for j while this side had asked for it too. From then on every write of j is
      refused, and its resolver, if it still runs, can only abort. */
  lemma {:induction false} CanceledExactly(objects: seq<seq<byte>>, wire: byte, gs: seq<Guarded>,
                                           evs: seq<Event>, k: nat, role: Role, j: nat)
    requires GuardedRun(objects, wire, gs, evs) && k < |gs| && j < NUM_IDS
    ensures GuardInv(gs[k])
    ensures DeskOf(gs[k], role).answers[j].Canceled? <==> exists i :: 0 <= i < k && CancelsAt(gs[i], evs[i], role, j)
    ensures DeskOf(gs[k], role).answers[j].Canceled? ==>
              && (forall value :: Refused(gs[k], Act(LocalWrite(role, j, value))))
              && (Proper(gs[k], Resolve(role, j)) ==>
                    Next(gs[k], Resolve(role, j)) == Err(ObjectWriteCanceledByIncomingRead))
  {
    hide Inv, GuardedNext, CancelsAt, Begin, Covered, ReadsInv, ValidSystem;
    if k == 0 {
      BeginInv(objects, wire);
      assert !DeskOf(gs[0], role).answers[j].Canceled? by { BeginLink(objects, wire); }
    } else {
      CanceledExactly(objects, wire, gs, evs, k - 1, role, j);
      assert GuardedNext(gs[k - 1], evs[k - 1], gs[k]);
      CanceledBy(gs[k - 1], evs[k - 1], gs[k], role, j);
    }
    CanceledIsPending(gs[k], role, j);
  }

  lemma CanceledIsPending(g: Guarded, role: Role, j: nat)
    requires GuardInv(g) && j < NUM_IDS
    ensures DeskOf(g, role).answers[j].Canceled? ==> DeskOf(g, role).pending[j]
    ensures DeskOf(g, role).live ==> !DeskOf(g, role).readAnswers[j].Faulted?
  {
    hide Inv, ValidSizes, ValidSender, ValidReceiver;
  }

  /** Clients write an object only when the other side does not want it. */
  predicate Courteous(g: Guarded, ev: Event)
    requires Formed(g)
  {
    ev.Act? && ev.action.LocalWrite? && ev.action.id < NUM_IDS ==>
      !Wants(if ev.action.role.Fpga? then g.link.mcu else g.link.fpga, ev.action.id)
  }

  ghost predicate NoContest(g: Guarded) {
    GuardInv(g) && Uncontended(g.link) && NoneCanceled(g.fpga) && NoneCanceled(g.mcu)
  }

  lemma NextIsCalm(g: Guarded, ev: Event)
    requires NoContest(g) && Proper(g, ev) && !Refused(g, ev) && Courteous(g, ev)
    requires ev.Act? ==> Timely(g.link, ev.action)
    ensures Next(g, ev).Ok? && NoContest(Next(g, ev).value)
  {
    hide Inv, Step, Timely, ValidSizes, ValidSender, ValidReceiver, Wants, Enabled, Answered, Covered, LosesNothing,
         Uncontended, Acted;
    NextKeeps(g, ev);
    if ev.Act? {
      GuardIsWritable(g, ev);
      var s, a := g.link, ev.action;
      StepKeeps(s, a);
      var s' := Step(s, a).value;
      UncontendedKeeps(s, a, s');
      if a.HalfTurn? {
        TurnLosesNothing(s, s');
      } else {
        OthersLoseNothing(s, a, s');
      }
      Roles(s);
      NothingCanceled(s.fpga, s'.fpga, g.fpga, a, Fpga);
      NothingCanceled(s.mcu, s'.mcu, g.mcu, a, Mcu);
    }
  }

  lemma BeginsCalm(objects: seq<seq<byte>>, wire: byte)
    requires ValidSizes(objects)
    ensures NoContest(Begin(objects, wire))
  {
    hide Inv;
    BeginInv(objects, wire);
    StartWantsNothing(Fpga, objects);
  }

  /** Over every run in which clients write an object only when the other side does not want it, no
      write is cancelled, so that whatever comes next the resolvers do not abort. */
  lemma {:induction false} NeverCanceled(objects: seq<seq<byte>>, wire: byte, gs: seq<Guarded>,
                                         evs: seq<Event>, ev: Event)
    requires GuardedRun(objects, wire, gs, evs)
    requires forall i :: 0 <= i < |evs| ==> Formed(gs[i]) && Courteous(gs[i], evs[i])
    ensures NoContest(gs[|evs|])
    ensures Proper(gs[|evs|], ev) && (ev.Act? ==> Timely(gs[|evs|].link, ev.action)) && !Refused(gs[|evs|], ev) ==>
              Next(gs[|evs|], ev).Ok?
    decreases |evs|
  {
    hide Next, ValidSystem, Proper, Timely, Begin, GuardInv, Courteous, Refused, Uncontended, NoneCanceled;
    var n := |evs|;
    if n == 0 {
      BeginsCalm(objects, wire);
    } else {
      var g, last := gs[n - 1], evs[n - 1];
      assert gs[..n][n - 1] == g && GuardedNext(g, last, gs[n]);
      NeverCanceled(objects, wire, gs[..n], evs[..n - 1], last);
      assert !Refused(g, last) by { OkIsNotRefused(g, last); }
      NextIsCalm(g, last);
    }
    assert Formed(gs[n]) by { CalmIsFormed(gs[n]); }
    if Proper(gs[n], ev) && (ev.Act? ==> Timely(gs[n].link, ev.action)) && !Refused(gs[n], ev) {
      NextNeverFails(gs[n], ev);
    }
  }

  lemma OkIsNotRefused(g: Guarded, ev: Event)
    requires Formed(g) && Proper(g, ev) && Next(g, ev).Ok?
    ensures !Refused(g, ev)
  {
    hide Acted, Proper, ValidSystem;
  }

  lemma CalmIsFormed(g: Guarded)
    requires NoContest(g)
    ensures Formed(g)
  {
    hide Formed, Inv, Covered, Uncontended, NoneCanceled;
  }

  lemma NextNeverFails(g: Guarded, ev: Event)
    requires NoContest(g) && Proper(g, ev) && !Refused(g, ev)
    requires ev.Act? ==> Timely(g.link, ev.action)
    ensures Next(g, ev).Ok?
  {
    hide Inv, Next, Timely, Covered, Uncontended, ValidSystem, Proper;
    NextKeeps(g, ev);
  }
}
