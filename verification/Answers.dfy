/** What a client hears: every finished write frees its object again, and every finished read is
    reported, once. */
module Answers {
  import opened Bits
  import opened Codec
  import opened Endpoint
  import opened Link
  import opened Pair
  import opened Mirror
  import opened Safety
  import opened Shutdown
  import opened Stopping
  import opened Interrupt
  import opened Resolver

  // ----- Writes -----

  /** The transfer of object j ends on this side. */
  predicate SendEnds(g: Guarded, g': Guarded, role: Role, j: nat) {
    Raised(SideOf(g.link, role).tx.transfer, j) && !Raised(SideOf(g'.link, role).tx.transfer, j)
  }

  predicate WritesIt(ev: Event, role: Role, j: nat) {
    ev.Act? && ev.action.LocalWrite? && ev.action.role == role && ev.action.id == j
  }

  /** Nothing of object j is wanted on this side, and no write of it has been cancelled. */
  ghost predicate Idle(g: Guarded, role: Role, j: nat) {
    Valid(SideOf(g.link, role)) && j < NUM_IDS && Shaped(DeskOf(g, role))
    && !Wants(SideOf(g.link, role), j) && !DeskOf(g, role).answers[j].Canceled?
  }

  /** A write is refused exactly while an earlier one is wanted or its answer has not been resolved. */
  lemma RefusedExactly(g: Guarded, role: Role, j: nat, value: seq<byte>)
    requires GuardInv(g) && j < NUM_IDS
    ensures Valid(SideOf(g.link, role)) && Shaped(DeskOf(g, role))
    ensures Refused(g, Act(LocalWrite(role, j, value))) <==>
              Wants(SideOf(g.link, role), j) || !DeskOf(g, role).answers[j].Open?
  {
    hide Inv, ValidSizes, ValidSender, ValidReceiver, ReadsInv;
  }

  lemma ActEnds(s: System, a: Action, s': System, role: Role, j: nat, d: Desk)
    requires Inv(s) && Safety.Next(s, a, s') && Covered(SideOf(s, role), d) && j < NUM_IDS
    ensures Inv(s') && Valid(SideOf(s', role)) && Valid(SideOf(s, role))
    ensures var e, e', d' := SideOf(s, role), SideOf(s', role), After(SideOf(s, role), SideOf(s', role), d, a);
            && (Raised(e.tx.transfer, j) && !Raised(e'.tx.transfer, j) ==> d'.answers[j].Succeeded? && !Wants(e', j))
            && (!Wants(e, j) && !(a.LocalWrite? && a.role == role && a.id == j) ==>
                  !Wants(e', j) && d'.answers[j] == d.answers[j])
  {
    var e, e' := SideOf(s, role), SideOf(s', role);
    StepProgresses(s, a, s');
    AnswerAfter(e, e', d, a, j);
    hide Inv, Safety.Next, After, Covered, ValidSizes, ValidReceiver;
    assert Progresses(e, e', a, role);
  }

  lemma Ends(g: Guarded, ev: Event, g': Guarded, role: Role, j: nat)
    requires GuardInv(g) && GuardedNext(g, ev, g') && j < NUM_IDS
    ensures GuardInv(g')
    ensures SendEnds(g, g', role, j) ==> Idle(g', role, j)
    ensures Idle(g, role, j) && !WritesIt(ev, role, j) ==> Idle(g', role, j)
    ensures Idle(g, role, j) && ev == Resolve(role, j) ==> DeskOf(g', role).answers[j].Open?
    ensures Idle(g, role, j) && !WritesIt(ev, role, j) && DeskOf(g, role).answers[j].Open? ==>
              DeskOf(g', role).answers[j].Open?
  {
    hide Inv, Step, Timely, Enabled, ReadsInv, After, Acted, Proper, Covered, ValidSizes, ValidSender, ValidReceiver;
    hide Wants, Raised, Refused;
    NextKeeps(g, ev);
    if ev.Act? {
      GuardIsWritable(g, ev);
      Roles(g.link);
      ActEnds(g.link, ev.action, g'.link, role, j, DeskOf(g, role));
    }
  }

  /** After the transfer of j has ended at step i, and without another write of j. */
  lemma {:induction false} SinceEnded(objects: seq<seq<byte>>, wire: byte, gs: seq<Guarded>, evs: seq<Event>,
                                      role: Role, j: nat, i: nat, m: nat, k: nat)
    requires GuardedRun(objects, wire, gs, evs) && i < m && i < k <= |evs| && j < NUM_IDS
    requires SendEnds(gs[i], gs[i + 1], role, j)
    requires m < |evs| && evs[m] == Resolve(role, j)
    requires forall t :: i < t < k ==> !WritesIt(evs[t], role, j)
    ensures GuardInv(gs[k]) && Idle(gs[k], role, j)
    ensures m < k ==> DeskOf(gs[k], role).answers[j].Open?
    decreases k
  {
    hide Inv, GuardedNext, SendEnds, WritesIt, Begin, Idle, GuardInv;
    GuardedInv(objects, wire, gs, evs, k - 1);
    if k - 1 > i {
      SinceEnded(objects, wire, gs, evs, role, j, i, m, k - 1);
    }
    assert GuardedNext(gs[k - 1], evs[k - 1], gs[k]);
    Ends(gs[k - 1], evs[k - 1], gs[k], role, j);
  }

  lemma GuardedInv(objects: seq<seq<byte>>, wire: byte, gs: seq<Guarded>, evs: seq<Event>, k: nat)
    requires GuardedRun(objects, wire, gs, evs) && k < |gs|
    ensures GuardInv(gs[k])
  {
    hide GuardedNext, Begin, GuardInv, Run;
    assert forall i :: 0 <= i < k ==> evs[..k][i] == evs[i] && gs[..k + 1][i] == gs[i];
    var ss, acts := GuardedRunIsRun(objects, wire, gs[..k + 1], evs[..k]);
  }

  /** Over every run: once the transfer of object j has ended (step i) and j has been resolved after it
      (step m), the next write of j that a client asks for is taken. */
  lemma WritesAgain(objects: seq<seq<byte>>, wire: byte, gs: seq<Guarded>, evs: seq<Event>, role: Role, j: nat,
                    i: nat, m: nat, k: nat, value: seq<byte>)
    requires GuardedRun(objects, wire, gs, evs) && i < m < k <= |evs| && j < NUM_IDS
    requires SendEnds(gs[i], gs[i + 1], role, j) && evs[m] == Resolve(role, j)
    requires forall t :: i < t < k ==> !WritesIt(evs[t], role, j)
    ensures Formed(gs[k]) && !Refused(gs[k], Act(LocalWrite(role, j, value)))
    ensures Proper(gs[k], Act(LocalWrite(role, j, value))) ==> Resolver.Next(gs[k], Act(LocalWrite(role, j, value))).Ok?
  {
    SinceEnded(objects, wire, gs, evs, role, j, i, m, k);
    RefusedExactly(gs[k], role, j, value);
    hide Inv, Covered, ReadsInv, ValidSystem, Proper, Resolver.Next, SendEnds;
    if Proper(gs[k], Act(LocalWrite(role, j, value))) {
      NextKeeps(gs[k], Act(LocalWrite(role, j, value)));
    }
  }

  // ----- Reads -----

  /** The read of object j ends on this side. */
  predicate ReadEnds(g: Guarded, g': Guarded, role: Role, j: nat) {
    Raised(SideOf(g.link, role).rx.readLock, j) && !Raised(SideOf(g'.link, role).rx.readLock, j)
  }

  lemma ActReads(s: System, a: Action, s': System, role: Role, j: nat, d: Desk)
    requires Inv(s) && Safety.Next(s, a, s') && Shaped(d) && j < NUM_IDS
    ensures var e, e', r := SideOf(s, role), SideOf(s', role), d.readAnswers[j];
            var r' := After(e, e', d, a).readAnswers[j];
            var ends := Raised(e.rx.readLock, j) && !Raised(e'.rx.readLock, j);
            && (ends && !r.Faulted? ==> r'.ReadDone?)
            && (r'.ReadDone? ==> ends || r.ReadDone?)
            && (r.ReadDone? ==> r'.ReadDone? || r'.Faulted?)
            && (r.Faulted? ==> r'.Faulted?)
  {
    Roles(s);
    var e, e' := SideOf(s, role), SideOf(s', role);
    if Stops(e, e', a) {
      StopEndsNoRead(s, a, s', role, j);
    }
    AfterReads(e, e', d, a);
    hide Inv, Safety.Next, After, Stops, Raised;
  }

  lemma AfterReads(e: Endpoint, e': Endpoint, d: Desk, a: Action)
    requires Shaped(d)
    ensures After(e, e', d, a).readAnswers == (if Stops(e, e', a) then Interrupted(d) else Served(e, e', d)).readAnswers
    ensures After(e, e', d, a).started == (if Stops(e, e', a) then Interrupted(d) else Served(e, e', d)).started
  {
    hide Answered, Asked, Interrupted, Served, Stops;
  }

  lemma StopEndsNoRead(s: System, a: Action, s': System, role: Role, j: nat)
    requires Inv(s) && Safety.Next(s, a, s') && Stops(SideOf(s, role), SideOf(s', role), a)
    requires s.fpga.role.Fpga? && s.mcu.role.Mcu?
    ensures !(Raised(SideOf(s, role).rx.readLock, j) && !Raised(SideOf(s', role).rx.readLock, j))
  {
    if role.Mcu? {
      McuHearsNothingReceived(s, a, s');
    }
    hide Inv, ValidSizes, ValidSender, ValidReceiver, Timely;
  }

  /** One step: a read that ends is reported, a report stays until it is resolved, and nothing else is
      one. Only a side that is told to stop turns it into a fault. */
  lemma Reports(g: Guarded, ev: Event, g': Guarded, role: Role, j: nat)
    requires GuardInv(g) && GuardedNext(g, ev, g') && j < NUM_IDS
    ensures GuardInv(g') && Shaped(DeskOf(g, role)) && Shaped(DeskOf(g', role))
    ensures var r, r' := DeskOf(g, role).readAnswers[j], DeskOf(g', role).readAnswers[j];
            && (ReadEnds(g, g', role, j) && !r.Faulted? ==> r'.ReadDone?)
            && (ev == Resolve(role, j) ==> r'.NoRead?)
            && (r'.ReadDone? ==> ReadEnds(g, g', role, j) || (r.ReadDone? && ev != Resolve(role, j)))
            && (r.ReadDone? && ev != Resolve(role, j) ==> r'.ReadDone? || r'.Faulted?)
            && (r.Faulted? ==> r'.Faulted?)
  {
    hide Inv, Step, Timely, Enabled, ReadsInv, After, Acted, Proper, Covered, ValidSizes, ValidSender, ValidReceiver;
    hide Wants, Raised, Refused;
    NextKeeps(g, ev);
    if ev.Act? {
      GuardIsWritable(g, ev);
      Roles(g.link);
      ActReads(g.link, ev.action, g'.link, role, j, DeskOf(g, role));
    }
  }

  /** The read that ended at step i has not been resolved before step k. */
  predicate Unresolved(gs: seq<Guarded>, evs: seq<Event>, role: Role, j: nat, i: nat, k: nat)
    requires k < |gs| == |evs| + 1
  {
    i < k && ReadEnds(gs[i], gs[i + 1], role, j) && forall t :: i < t < k ==> evs[t] != Resolve(role, j)
  }

  /** Over every run: the resolver finds a finished read of object j if and only if one has ended since
      it looked last; a fault excepted, which no resolver that still runs ever finds. */
  lemma {:induction false} ReadReported(objects: seq<seq<byte>>, wire: byte, gs: seq<Guarded>, evs: seq<Event>,
                                        role: Role, j: nat, k: nat)
    requires GuardedRun(objects, wire, gs, evs) && k < |gs| && j < NUM_IDS
    ensures GuardInv(gs[k]) && Shaped(DeskOf(gs[k], role))
    ensures DeskOf(gs[k], role).live ==> !DeskOf(gs[k], role).readAnswers[j].Faulted?
    ensures !DeskOf(gs[k], role).readAnswers[j].Faulted? ==>
              (DeskOf(gs[k], role).readAnswers[j].ReadDone? <==> exists i :: Unresolved(gs, evs, role, j, i, k))
  {
    hide Inv, GuardedNext, ReadEnds, Begin, GuardInv, Formed;
    GuardedInv(objects, wire, gs, evs, k);
    var d := DeskOf(gs[k], role);
    assert Shaped(d) && (d.live ==> !d.readAnswers[j].Faulted?) by {
      LiveIsSound(gs[k], role, j);
    }
    if k == 0 {
      BeginLink(objects, wire);
    } else {
      var n := k - 1;
      ReadReported(objects, wire, gs, evs, role, j, n);
      assert GuardedNext(gs[k - 1], evs[k - 1], gs[k]);
      Reports(gs[k - 1], evs[k - 1], gs[k], role, j);
      UnresolvedSteps(gs, evs, role, j, k - 1, k);
    }
  }

  lemma UnresolvedSteps(gs: seq<Guarded>, evs: seq<Event>, role: Role, j: nat, k: nat, n: nat)
    requires k < n < |gs| == |evs| + 1 && n == k + 1
    ensures (exists i :: Unresolved(gs, evs, role, j, i, n)) <==>
              || ReadEnds(gs[k], gs[n], role, j)
              || (evs[k] != Resolve(role, j) && exists i :: Unresolved(gs, evs, role, j, i, k))
  {
    hide ReadEnds;
    assert ReadEnds(gs[k], gs[n], role, j) ==> Unresolved(gs, evs, role, j, k, n);
    assert forall i: nat :: Unresolved(gs, evs, role, j, i, n) ==>
        i == k || (Unresolved(gs, evs, role, j, i, k) && evs[k] != Resolve(role, j));
    assert evs[k] != Resolve(role, j) ==>
        forall i: nat :: Unresolved(gs, evs, role, j, i, k) ==> Unresolved(gs, evs, role, j, i, n);
  }

  lemma LiveIsSound(g: Guarded, role: Role, j: nat)
    requires GuardInv(g) && j < NUM_IDS
    ensures Shaped(DeskOf(g, role))
    ensures DeskOf(g, role).live ==> !DeskOf(g, role).readAnswers[j].Faulted?
  {
    hide Inv, Covered, ValidSystem;
  }

  // ----- The FPGA is told to stop -----

  /** Only read-locked objects have a read that has been started. */
  predicate Within(e: Endpoint, d: Desk) {
    && Shaped(d) && |e.rx.readLock| == NUM_IDS
    && forall j :: 0 <= j < NUM_IDS && d.started[j] ==> e.rx.readLock[j]
  }

  ghost predicate FpgaReads(g: Guarded) {
    Within(g.link.fpga, g.fpga) && (!Leaving(g.link.fpga) ==> Tracks(g.link.fpga, g.fpga))
  }

  /** The power-on that makes the FPGA forget a stop request finds it receiving nothing. */
  lemma ForgetsUnlocked(s: System, a: Action, s': System)
    requires Inv(s) && Safety.Next(s, a, s') && Leaving(s.fpga) && !Leaving(s'.fpga)
    ensures None(s'.fpga.rx.readLock)
  {
    Roles(s);
    if a.HalfTurn? && s.phase.FpgaIn? {
      InForgets(s);
    } else if a.HalfTurn? && s.phase.FpgaOut? {
      OutFrame(s.fpga);
    }
    hide Inv, In, Out, ValidSizes, ValidSender, ValidReceiver, Timely, None;
  }

  lemma InForgets(s: System)
    requires Inv(s) && s.phase.FpgaIn? && !s.fpga.vars.sentSighup && s.fpga.role.Fpga?
    ensures In(s.fpga, s.wire).Ok?
    ensures Leaving(s.fpga) && !Leaving(In(s.fpga, s.wire).value) ==> None(In(s.fpga, s.wire).value.rx.readLock)
  {
    NoSighupYet(s);
    InKeeps(s.mcu, s.fpga, s.mcuCopy, s.fpgaCopy, s.wire);
    var e := In(s.fpga, s.wire).value;
    if s.fpga.firstRun {
      FirstInIsNothing(s.fpga, s.wire);
    } else {
      StopRequestSurvives(s.fpga, s.wire);
      assert Taken(s.mcu, e, CopyOnGrant(s.mcu, s.fpga, e, s.mcuCopy), s.fpgaCopy);
      if RequestBit(s.wire) && Low6(s.wire) == POWERON {
        PowerOnIsBlank(s.mcu, s.fpga, s.mcuCopy, s.fpgaCopy, s.wire);
        GrantsNothing(s.mcu, e, CopyOnGrant(s.mcu, s.fpga, e, s.mcuCopy), s.fpgaCopy);
      } else {
        KeepsLeaving(s.mcu, s.fpga, s.mcuCopy, s.fpgaCopy, s.wire);
      }
    }
    hide Inv, In, Taken, Valid, RequestBit, Low6, None;
  }

  lemma PowerOnIsBlank(x: Endpoint, y: Endpoint, copyX: seq<seq<byte>>, copyY: seq<seq<byte>>, b: byte)
    requires Sent(x, y, copyX, copyY, b) && !y.firstRun && RequestBit(b) && Low6(b) == POWERON
    ensures None(x.tx.transfer) && !x.vars.acknowledgeRequested
  {
    hide Synced, Coherent, Exclusive, Copied, DataInFlight, ValidSizes, ValidReceiver, RequestBit, AcknowledgeBit, Low6;
  }

  lemma GrantsNothing(x: Endpoint, y: Endpoint, copyX: seq<seq<byte>>, copyY: seq<seq<byte>>)
    requires Taken(x, y, copyX, copyY) && None(x.tx.transfer) && !x.vars.acknowledgeRequested
    ensures None(y.rx.readLock)
  {
    hide Synced, Coherent, Exclusive, Copied, ValidSizes, ValidSender, ValidReceiver;
  }

  lemma KeepsLeaving(x: Endpoint, y: Endpoint, copyX: seq<seq<byte>>, copyY: seq<seq<byte>>, b: byte)
    requires Sent(x, y, copyX, copyY, b) && !y.firstRun && !y.vars.receivedSighup && In(y, b).Ok?
    requires !(RequestBit(b) && Low6(b) == POWERON) && y.role.Fpga?
    ensures Leaving(In(y, b).value) == Leaving(y)
  {
    SentFlags(x, y, copyX, copyY, b);
    InKeeps(x, y, copyX, copyY, b);
    StopRequestSurvives(y, b);
    InShutdownFlag(x, In(y, b).value, CopyOnGrant(x, y, In(y, b).value, copyX), copyY);
    hide Sent, Taken, In, Valid, RequestBit, Low6;
  }

  lemma InShutdownFlag(x: Endpoint, y: Endpoint, copyX: seq<seq<byte>>, copyY: seq<seq<byte>>)
    requires Taken(x, y, copyX, copyY)
    ensures x.vars.receivedComShutdown == y.vars.sentComShutdown
  {
    hide Synced, Coherent, Side;
  }

  lemma ServedWithin(e: Endpoint, e': Endpoint, d: Desk, a: Action)
    requires Within(e, d) && |e'.rx.readLock| == NUM_IDS
    ensures Within(e', After(e, e', d, a))
    ensures !Stops(e, e', a) && Tracks(e, d) ==> Tracks(e', After(e, e', d, a))
    ensures None(e'.rx.readLock) ==> Tracks(e', After(e, e', d, a))
  {
    hide Answered, Asked, Stops;
    AfterReads(e, e', d, a);
    StopKeepsWithin(e, e', d);
    hide After, Served, Interrupted;
  }

  lemma StopKeepsWithin(e: Endpoint, e': Endpoint, d: Desk)
    requires Within(e, d) && |e'.rx.readLock| == NUM_IDS
    ensures forall j :: 0 <= j < NUM_IDS ==> !Interrupted(d).started[j]
    ensures forall j :: 0 <= j < NUM_IDS && Served(e, e', d).started[j] ==> e'.rx.readLock[j]
    ensures Tracks(e, d) ==> forall j :: 0 <= j < NUM_IDS ==> (Served(e, e', d).started[j] <==> e'.rx.readLock[j])
  {
  }

  lemma ActReadsKeep(s: System, a: Action, s': System, d: Desk)
    requires Inv(s) && Safety.Next(s, a, s') && Inv(s') && Within(s.fpga, d)
    requires !Leaving(s.fpga) ==> Tracks(s.fpga, d)
    ensures var d' := After(s.fpga, s'.fpga, d, a);
            Within(s'.fpga, d') && (!Leaving(s'.fpga) ==> Tracks(s'.fpga, d'))
  {
    Roles(s);
    assert |s'.fpga.rx.readLock| == NUM_IDS by { InvSides(s'); }
    ServedWithin(s.fpga, s'.fpga, d, a);
    if Leaving(s.fpga) && !Leaving(s'.fpga) {
      ForgetsUnlocked(s, a, s');
    }
    assert Stops(s.fpga, s'.fpga, a) ==> Leaving(s'.fpga) by { StopsLeaving(s, a, s'); }
    hide Inv, Safety.Next, After, Stops, Within, Tracks, None, Leaving;
  }

  lemma StopsLeaving(s: System, a: Action, s': System)
    requires Safety.Next(s, a, s') && s.fpga.role.Fpga?
    ensures Stops(s.fpga, s'.fpga, a) ==> Leaving(s'.fpga)
  {
    hide ValidSystem, Timely, In, Out;
  }

  lemma FpgaReadsKeep(g: Guarded, ev: Event, g': Guarded)
    requires GuardInv(g) && GuardedNext(g, ev, g') && FpgaReads(g)
    ensures GuardInv(g') && FpgaReads(g')
  {
    NextKeeps(g, ev);
    if ev.Act? {
      GuardIsWritable(g, ev);
      ActReadsKeep(g.link, ev.action, g'.link, g.fpga);
    }
    hide Inv, Step, Timely, Enabled, ReadsInv, After, Acted, Proper, Covered, ValidSizes, ValidSender, ValidReceiver,
         Refused, Safety.Next, Leaving;
  }

  lemma {:induction false} FpgaReadsRun(objects: seq<seq<byte>>, wire: byte, gs: seq<Guarded>, evs: seq<Event>, k: nat)
    requires GuardedRun(objects, wire, gs, evs) && k < |gs|
    ensures GuardInv(gs[k]) && FpgaReads(gs[k])
  {
    hide Inv, GuardedNext, GuardInv, FpgaReads, Begin;
    if k == 0 {
      BeginInv(objects, wire);
      assert FpgaReads(gs[0]) by { BeginReads(objects, wire); }
    } else {
      FpgaReadsRun(objects, wire, gs, evs, k - 1);
      assert GuardedNext(gs[k - 1], evs[k - 1], gs[k]);
      FpgaReadsKeep(gs[k - 1], evs[k - 1], gs[k]);
    }
  }

  lemma BeginReads(objects: seq<seq<byte>>, wire: byte)
    ensures FpgaReads(Begin(objects, wire))
  {
  }

  /** Over every run: when the FPGA is told to stop, exactly the objects it is receiving are reported as
      faulted. */
  lemma StopReports(objects: seq<seq<byte>>, wire: byte, gs: seq<Guarded>, evs: seq<Event>, k: nat, j: nat)
    requires GuardedRun(objects, wire, gs, evs) && k < |evs| && evs[k] == Act(Notify) && j < NUM_IDS
    requires !Leaving(gs[k].link.fpga)
    ensures Shaped(gs[k].fpga) && Shaped(gs[k + 1].fpga) && |gs[k].link.fpga.rx.readLock| == NUM_IDS
    ensures gs[k + 1].fpga.readAnswers[j].Faulted? <==>
              gs[k].fpga.readAnswers[j].Faulted? || gs[k].link.fpga.rx.readLock[j]
  {
    FpgaReadsRun(objects, wire, gs, evs, k);
    var g, g' := gs[k], gs[k + 1];
    assert GuardedNext(g, evs[k], g');
    NextKeeps(g, evs[k]);
    GuardIsWritable(g, evs[k]);
    Roles(g.link);
    AfterReads(g.link.fpga, g'.link.fpga, g.fpga, Notify);
    hide Inv, Covered, ReadsInv, After, Acted, Step, Enabled, ValidSizes, ValidSender, ValidReceiver, GuardedRun;
    hide Served;
  }
}
