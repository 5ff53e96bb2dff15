# A verified model of Software On Silicon

This project models, in Dafny, the parts of Software On Silicon that have to be right for two
processors to share memory over one byte-wide wire, and proves what they promise.

**The serial mirror** (`Endpoint`, `Link`, `Pair`, `Mirror`). An FPGA and an MCU each hold a copy of
the same objects and swap one byte per turn: six data bits, a request bit and an acknowledge bit. A
turn reads a byte (IN) and writes one (OUT). `Endpoint` is one side as a pure state machine, branch
by branch as in the code, with every abort as an error result. `Pair` holds the joint invariant of
two endpoints and the byte in flight; `Mirror` adds runs, in which local writes and the stop request
fall anywhere between the halves of a turn. On top stand `Safety` (no abort, coherence, ownership,
framing), `Delivery` (what a transfer delivers), `Shutdown` (the handshake at the end and when it
breaks), `AnyPeer` (what one side refuses, whatever the other sends), `Values` (whose copy of an
object wins), `Progress` and `Stopping` (how long everything takes), `Aftermath` (what follows a
shutdown that is too early) and two concrete runs, `ShortRun` (a clean stop) and `Untimely` (one
that fails), whose first turns are in `Witness`.

**The codec** (`Bits`, `Codec`): three bytes as four sextets, written with shifts and carries, and
the bit-set conversions under it.

**The endpoint as an object** (`Serial`, `Exchange`): the class with its fields and flag arrays,
method by method, each tied to the pure function it implements; two such objects exchanging bytes
until the link is shut down.

**The relay** (`Relay`): three threads and four flags, each access one step. Its runs are shown to
be runs of the alternating link. **The resolver** (`Resolver`): the pending-write guard in front of
the link, the answers it hands out (`Answers`) and the writes it cancels; `Canceled` is a run in
which that happens. `Interrupt` is the moment a side is told to stop. Clients and resolvers are
threads that end before their side does.

**The ring and the memory** (`Ring`, `Reader`, `Stall`, `RingToMemory`, `BlockReader`): the
single-producer ring buffer, the append-only memory with its backwards reader, the ring that feeds a
memory, and all of it together, as threads whose every load, store, test_and_set and clear is one
step under any interleaving, and as objects whose calls run uninterrupted.

## What the theorems assume

- Local writes set an object and its request together, and only while the object is not being
  received (`Mirror.Enabled`, `Pair.Writable`). That nothing of it is requested or in transfer
  follows from the pending-write guard (`Resolver.GuardedRunIsRun`).
- `com_shutdown` leaves a side only when none of its transfers is set (`Mirror.Timely`). The code
  does not test this. `Shutdown.ShutdownGuard` shows that the condition is exact, `Untimely` a run
  that aborts without it, and `Shutdown.FrugalClientsAreTimely` a policy of the clients that ensures
  it. At most one outstanding object per side once a side has been told to stop is not quite enough:
  an object accepted earlier can still be waiting at that moment, as in `Untimely`. Until a side is
  told to stop nothing needs to be assumed (`Progress.UnstoppedIsDriven`).
- For a clean shutdown, a side gets no more local writes once it has sent `com_shutdown`
  (`Shutdown.Quiet`). For the FPGA this follows from the order in which its threads are joined
  (`Resolver.GuardedRunIsRun`, `Resolver.CleanClose`); for the MCU it is assumed. The stop request
  comes after power-on has been read: power-on resets it (`Stopping.StopRequestSurvives`).
- Both sides hold the same number of objects, at most 58, with the same sizes, each positive and
  divisible by three, and start with the same contents (`Mirror.Init`). All of these stay symbolic.

Turns alternate strictly by proof, not by assumption (`Relay.NetRunIsRun`).

Where the code differs from what one would expect, the model follows the code:

- A local write that meets the peer's request for the same object is withdrawn, and the resolver
  then aborts (`Shutdown.WriteLostExactly`, `Canceled.WriteIsCanceled`).
- `Reader::wait` sets the writing flag and clears it again in two steps. A writer that finishes in
  between loses its flag, and the reader stalls until the next write (`Stall.StalledExactly`).
- The reader loads the end of the write range before its start. With one element written at a time
  that is harmless (`Reader.ReadShape`); with a block, an end that is stale lets through elements
  that have not been committed (`BlockReader.LeaksExactly`, `BlockReader.ShapeIsLost`).
- An FPGA that is told to stop while it is receiving an object reports a fault that nobody reads:
  its resolver has been joined by then (`Resolver.NeverInterrupted`).
- After an untimely `com_shutdown` there is no clean close (`Aftermath.NoCleanClose`).
- The MCU ignores the FPGA's first byte, and the FPGA reads the MCU's power-on.

## Model

| member | source | states |
|---|---|---|
| `Bits.MaxUnsignedInt` | include/software-on-silicon/serial_helpers.hpp:3-11 | the result is 256^n - 1 for any byte count n |
| `Bits.BitsetToBytearray` | include/software-on-silicon/serial_helpers.hpp:21-29 | the array ends up holding the big-endian base-256 digits of the bit set, for any width 8n |
| `Bits.BytearrayToBitset` | include/software-on-silicon/serial_helpers.hpp:30-42 | the exclusive-or accumulation is the big-endian sum of the bytes |
| `Bits.DigitsOfBigEndian` | include/software-on-silicon/serial_helpers.hpp:21-42 | bytes to bit set and back gives the bytes |
| `Bits.BigEndianOfDigits` | include/software-on-silicon/serial_helpers.hpp:21-42 | bit set to bytes and back gives the bit set |
| `Codec.SignalsKeepData` | include/software-on-silicon/MCUFPGA.hpp:21-31 | setting the two signal bits leaves the low six bits alone, and each of the three fields is read back as it was set |
| `Codec.WriteMakesSextet` | include/software-on-silicon/ByteWiseTransfer.hpp:219-278 | each call of `write` puts the next sextet of section 4 of RFC 4648 into the low six bits and the signals on top, whatever the signals are |
| `Codec.ReadTakesSextet` | include/software-on-silicon/ByteWiseTransfer.hpp:243-284 | each call of `read` adds the next sextet to the register whatever the signal bits are; the fourth completes the three bytes |
| `Codec.SextetBits` | include/software-on-silicon/ByteWiseTransfer.hpp:265-278 | which bits of the three bytes each sextet is made of |
| `Codec.EncodeSextets` | include/software-on-silicon/ByteWiseTransfer.hpp:219-242 | byte i of a whole encoded stream carries sextet i % 4 of group i / 4 under its own signal bits |
| `Codec.DecodeSextets` | include/software-on-silicon/ByteWiseTransfer.hpp:243-264 | any stream that carries the sextets of some data in its low six bits decodes to that data |
| `Codec.RoundTrip` | include/software-on-silicon/ByteWiseTransfer.hpp:219-284 | every byte sequence of whole groups, with any signal bits on each byte, comes back from `read`/`read_flush` after `write` |
| `Endpoint.ReadHook` | include/software-on-silicon/Serial.hpp:151-194 | a control code or a request never breaks the well-formedness of an endpoint |
| `Endpoint.ReadObject` | include/software-on-silicon/ByteWiseTransfer.hpp:128-170 | nor does a data byte, whatever it is |
| `Endpoint.In` | include/software-on-silicon/Serial.hpp:34-66 | nor does the whole IN half of a turn |
| `Endpoint.Out` | include/software-on-silicon/Serial.hpp:68-71 | nor does the OUT half |
| `Link.OpenTogether` | include/software-on-silicon/ByteWiseTransfer.hpp:130-143 | sender and receiver, each scanning its own flags, open the same object |
| `Link.SendStep` | include/software-on-silicon/ByteWiseTransfer.hpp:100-127 | a written data byte carries the next sextet of the granted copy; the last one clears `transfer` |
| `Link.ReadStep` | include/software-on-silicon/ByteWiseTransfer.hpp:144-166 | reading it brings the receiver level; with the last one its object equals the granted copy and the read lock is gone |
| `Pair.ReadData` | include/software-on-silicon/ByteWiseTransfer.hpp:128-170 | a data byte in flight is read without an error and leaves both sides in step |
| `Pair.ReadControl` | include/software-on-silicon/Serial.hpp:151-188 | a control code in flight is read without an error: none is a duplicate, none comes after sighup |
| `Pair.ReadRequest` | include/software-on-silicon/Serial.hpp:265-282 | a request in flight decodes to the id that was encoded, and is granted: neither a duplicate read lock, nor an object in transfer, nor the same-id collision |
| `Pair.RequestIsFree` | include/software-on-silicon/Serial.hpp:265-282 | the requested id is locked and in transfer on neither side, and is not the id the reader itself waits for |
| `Pair.AcknowledgeStep` | include/software-on-silicon/Serial.hpp:49-63 | the acknowledge bit arrives exactly when one is due, and the object it grants is free |
| `Pair.InKeeps` | include/software-on-silicon/Serial.hpp:34-66 | IN never aborts on what the peer sent and leads from the invariant of a byte in flight to that of a byte taken |
| `Pair.InEffect` | include/software-on-silicon/Serial.hpp:248-282 | what IN does to the requests of this side: its own request is accepted with the answering byte, and a local request loses exactly to the peer's request for the same object |
| `Pair.OutKeeps` | include/software-on-silicon/Serial.hpp:68-71 | OUT never aborts and puts a byte in flight that keeps the invariant, if com_shutdown leaves only with no transfer set |
| `Pair.OutTransfer` | include/software-on-silicon/ByteWiseTransfer.hpp:100-127 | writing a data byte keeps the two sides in step |
| `Pair.OutRequest` | include/software-on-silicon/Serial.hpp:285-298 | writing a request does: the object found is never read-locked |
| `Pair.OutControl` | include/software-on-silicon/Serial.hpp:195-222 | writing a control code does |
| `Mirror.InitInv` | test/test_mcufpga.cpp:15-18 | the start state satisfies the joint invariant, for any objects of valid size |
| `Mirror.StepKeeps` | include/software-on-silicon/Serial.hpp:29-74 | every half turn, local write and stop request succeeds and keeps the joint invariant |
| `Mirror.McuAnswers` | impl/MCUFPGA.cpp:131-136 | once the FPGA has sent sighup the MCU's next byte is its sighup |
| `Safety.RunInv` | include/software-on-silicon/Serial.hpp:29-74 | the joint invariant holds in every state of every run |
| `Safety.ErrorFree` | include/software-on-silicon/Serial.hpp:49-63 | no run reaches an abort, whatever happens next |
| `Safety.MirrorsCohere` | include/software-on-silicon/Serial.hpp:248-314 | if the copies of object j differ, a side has a sync request or a read lock for j; so memories with nothing pending are equal |
| `Safety.Ownership` | include/software-on-silicon/Serial.hpp:248-282 | `transfer` on one side is `readLock` on the other but for the one request, acknowledge or last byte in flight; never both on one side, never `transfer` on both |
| `Safety.FramedOut` | include/software-on-silicon/MCUFPGA.hpp:21-50 | a byte has bit 7 clear exactly when it is object data, bit 6 set exactly when it answers a request, and its code in the low six bits |
| `Safety.FramedIn` | include/software-on-silicon/Serial.hpp:38-48 | the peer takes each byte for what it was: data, or exactly the id or control code that was encoded; a request is granted and its answer prepared at once |
| `Safety.FramingOut` | include/software-on-silicon/MCUFPGA.hpp:21-50 | so in every reachable state: what the byte about to be written looks like |
| `Safety.FramingIn` | include/software-on-silicon/Serial.hpp:38-48 | and what the byte about to be read is taken for |
| `Safety.CodesArePartitioned` | include/software-on-silicon/SerialNotifier.hpp:248-260 | of the sixty-four codes two are reserved, four are control codes, and each other one is the id of one object |
| `Safety.RequestsLowest` | include/software-on-silicon/Serial.hpp:285-298 | a request is written exactly when an object is to be sent that has not been granted, none is open and com_shutdown has not been sent; its low six bits and `waiting` name the lowest such object |
| `Safety.SendsLowest` | include/software-on-silicon/Serial.hpp:299-314 | an object is opened for sending only if none below it is in transfer |
| `Safety.ReceivesLowest` | include/software-on-silicon/ByteWiseTransfer.hpp:130-143 | and for receiving only if none below it has a read lock |
| `Safety.ClosesExactly` | impl/MCUFPGA.cpp:65-136 | over the arrays and flags: exactly when a side sends com_shutdown, and exactly when sighup |
| `Safety.OutFailsExactly` | include/software-on-silicon/Serial.hpp:285-314 | OUT aborts exactly when the object next to be asked for, or next to be sent, is being received |
| `Delivery.WriteCounts` | include/software-on-silicon/ByteWiseTransfer.hpp:100-127 | the count of sextets sent is zero when an object is opened, goes up by one with every byte, and is 4/3 of the size when it is complete |
| `Delivery.ReadCounts` | include/software-on-silicon/ByteWiseTransfer.hpp:128-170 | so is the count of sextets read |
| `Delivery.Positions` | include/software-on-silicon/ByteWiseTransfer.hpp:100-166 | sender and receiver always work on the same object; with n sextets sent and m read (n - m at most 1) the positions are 3(n/4) + min(n%4, 3) and 3(m/4); while the last sextet is on its way the receiver lacks just that one |
| `Delivery.PrefixDelivered` | include/software-on-silicon/ByteWiseTransfer.hpp:144-158 | until the receiver has closed an object, what it has read is a prefix of the sender's, unless the sender has closed it and its client written it anew |
| `Delivery.Delivered` | include/software-on-silicon/ByteWiseTransfer.hpp:100-170 | over any run, when a read lock taken at one step is released at a later one, the receiver's object is the sender's as it stood when the lock was taken |
| `Shutdown.CleanShutdown` | impl/MCUFPGA.cpp:65-76 | once the FPGA has sent sighup no lock, transfer, request or partial position is left on either side, the memories are equal, the MCU answers with its next byte, and then the link is stopped |
| `Shutdown.ShutdownInterruptsNoRead` | impl/MCUFPGA.cpp:118-121 | when com_shutdown reaches the MCU nothing is being received there |
| `Shutdown.ShutdownGuard` | impl/MCUFPGA.cpp:65-70 | after com_shutdown the side's next byte is object data under a raised bit 7 if and only if an accepted object was waiting when it was sent |
| `Shutdown.NarrowIsTimely` | impl/MCUFPGA.cpp:65-70 | a side with at most one outstanding object, which is being sent as soon as it is accepted, sends com_shutdown only with no transfer set |
| `Shutdown.NarrowKeeps` | impl/MCUFPGA.cpp:65-70 | clients that write only when nothing of theirs is outstanding keep it that way, and no step aborts |
| `Shutdown.FrugalClientsAreTimely` | impl/MCUFPGA.cpp:65-70 | every run under the guards of the code and such clients is a run to which all the theorems apply |
| `Shutdown.WriteLostExactly` | include/software-on-silicon/ByteWiseTransfer.hpp:44-54 | IN withdraws a local request without a transfer if and only if it reads the peer's request for the same object |
| `Shutdown.NoWriteLost` | include/software-on-silicon/ByteWiseTransfer.hpp:44-54 | so no request is lost while the two sides want different objects |
| `Shutdown.UncontendedKeeps` | include/software-on-silicon/ByteWiseTransfer.hpp:44-54 | and clients can keep it so |
| `AnyPeer.IdlesExactly` | include/software-on-silicon/Serial.hpp:164-170 | the flag for an idle peer is up exactly when the last byte was an idle after the sighup |
| `AnyPeer.RefusesExactly` | include/software-on-silicon/Serial.hpp:151-194 | one side against any stream of bytes: since the last power-on it takes one sighup, one com_shutdown before that and only idle after it, and every other control byte or request aborts, each with its own error; a power-on is taken exactly with no request open, no acknowledge in it and no object half received |
| `AnyPeer.RefusesData` | include/software-on-silicon/ByteWiseTransfer.hpp:128-143 | a data byte is refused exactly when nothing is being received |
| `AnyPeer.RefusesRequest` | include/software-on-silicon/Serial.hpp:265-282 | a request is refused exactly when its object is read-locked or in transfer already, and passed over when this side has just asked for the same one |
| `AnyPeer.RefusesAcknowledge` | include/software-on-silicon/Serial.hpp:49-63 | an idle byte is refused exactly when its acknowledge bit is not what is due or grants an object that is read-locked or in transfer; an acknowledge that is taken moves the object from asked for to in transfer, and nothing else does |
| `Values.StepValues` | include/software-on-silicon/Serial.hpp:34-66 | a step leaves alone every object that is neither written nor being received, and begins to receive only what the peer wants to send |
| `Values.EitherStands` | include/software-on-silicon/Serial.hpp:248-282 | of every object that not both sides want to send, one side's copy stands: the peer does not want to send it and nothing of it is being received |
| `Values.StandsKeeps` | include/software-on-silicon/Serial.hpp:29-74 | a copy that stands goes on standing, unchanged, until it is written |
| `Values.LastWrittenStands` | include/software-on-silicon/Serial.hpp:29-74 | in every state of a run whose clients write object j only when the other side does not want it, one side's copy of j is what was written last, and stands |
| `Values.CleanShutdownKeepsWrites` | impl/MCUFPGA.cpp:65-76 | so at a clean shutdown both memories hold what was written last |
| `Progress.WorkLeft` | include/software-on-silicon/ByteWiseTransfer.hpp:100-127 | the measure is never negative, and zero exactly when no request and no transfer is left |
| `Progress.InWork` | include/software-on-silicon/Serial.hpp:34-66 | IN never adds to the measure |
| `Progress.OutWork` | include/software-on-silicon/Serial.hpp:315-339 | OUT takes exactly one off it, unless it is zero |
| `Progress.TurnLowersWork` | include/software-on-silicon/Serial.hpp:29-74 | a turn of a side with work left lowers requests + 4/3 of the sizes - sextets sent by at least one |
| `Progress.DrivenTurn` | include/software-on-silicon/Serial.hpp:29-74 | a link left to itself goes on without an abort until `handshake_query` stops it |
| `Progress.Converges` | include/software-on-silicon/Serial.hpp:315-339 | with at most k bytes left on each side, after 4k + 1 half turns (four more before power-on) both sides are and stay at rest, and both memories hold, of every object, the copy that stood, which is that of the side that wanted to send it; of one that both wanted to send, one of the two |
| `Progress.UnstoppedIsDriven` | include/software-on-silicon/Serial.hpp:93-96 | until somebody is told to stop this needs no assumption on com_shutdown |
| `Progress.NarrowIsDriven` | impl/MCUFPGA.cpp:65-70 | nor does it with frugal clients |
| `Stopping.StopRequestSurvives` | include/software-on-silicon/Serial.hpp:151-170 | the FPGA forgets that it was told to stop exactly when it reads power-on |
| `Stopping.ChooseClosing` | impl/MCUFPGA.cpp:65-76 | with nothing left and the conditions met a side does send com_shutdown, and the FPGA then sighup |
| `Stopping.ClosingRound` | impl/MCUFPGA.cpp:47-76 | the two rounds of the handshake |
| `Stopping.ShutsDown` | impl/MCUFPGA.cpp:108-136 | with at most k bytes left on each side, 4k + 11 half turns after the stop request both sides have sent sighup, nothing has aborted, both are at rest, and both memories hold the copies that stood |
| `Stopping.StopsAfterAnyRun` | impl/MCUFPGA.cpp:34-42 | over runs: after any run of frugal clients that write no more once their side has sent com_shutdown, and with power-on past, a stop request in any phase is followed within 4k + 11 half turns by both sighups and rest, and both memories hold what was written last to every object that clients wrote only when the other side did not want it |
| `Aftermath.NoCleanClose` | impl/MCUFPGA.cpp:65-76 | whenever com_shutdown leaves a side although an accepted object waits there, then in everything that can follow short of an abort the peer never finishes receiving and never sends sighup, as long as its own com_shutdown is in time |
| `Untimely.UntimelyShutdownAborts` | impl/MCUFPGA.cpp:65-70 | there is a run from the start state to one in which com_shutdown is about to leave while an accepted object waits; eight half turns later the FPGA aborts on an acknowledge nobody asked for |
| `ShortRun.StopsClean` | impl/MCUFPGA.cpp:34-42 | there is a run from the start state in which the FPGA is told to stop before anything is written: com_shutdown, 0xBC, crosses the link both ways, and the last two bytes are the sighups, 0xBD |
| `Resolver.GuardIsWritable` | include/software-on-silicon/SerialNotifier.hpp:495-508 | a write that passes the pending-write guard finds its object neither requested nor in transfer, so that what the resolver does is the link's local write |
| `Resolver.NextKeeps` | include/software-on-silicon/SerialNotifier.hpp:515-541 | the pending flag of an object is set exactly while its write is wanted or its answer unresolved; and with the guard in front of the link the only failures are a refused write and a cancelled one, each where the code reports it; never an abort of the link or on an interrupted read |
| `Resolver.GuardedRunIsRun` | include/software-on-silicon/SerialNotifier.hpp:469-541 | every run of clients, resolvers and link is a run of the link: its condition on local writes is no assumption |
| `Resolver.NeverCanceled` | include/software-on-silicon/SerialNotifier.hpp:528-540 | over every run in which clients write an object only when the other side does not want it, no write is cancelled and no resolver aborts |
| `Canceled.WriteIsCanceled` | include/software-on-silicon/SerialNotifier.hpp:528-540 | there is a run from the start state in which both clients write one object and the resolver of one aborts on its cancelled write |
| `Resolver.CanceledExactly` | include/software-on-silicon/SerialNotifier.hpp:515-541 | over every run a write has been cancelled if and only if some step read the peer's request for the object while this side had asked for it too; from then on every further write of it is refused, and the resolver, while it runs, can only abort |
| `Resolver.NeverInterrupted` | include/software-on-silicon/SerialNotifier.hpp:515-527 | over every run no resolver aborts on a read interrupted by a shutdown: the FPGA's has been joined before the FPGA is told to stop, and com_shutdown finds the MCU receiving nothing |
| `Resolver.InterruptsExactly` | include/software-on-silicon/ByteWiseTransfer.hpp:32-43 | were a resolver still there, it would abort on exactly the objects being received |
| `Resolver.CleanClose` | impl/MCUFPGA.cpp:34-42 | clean shutdown behind the resolvers, where only the MCU's clients have to be assumed quiet |
| `Answers.RefusedExactly` | include/software-on-silicon/SerialNotifier.hpp:495-508 | a write is refused if and only if an earlier one of the object is still wanted or its answer has not been resolved |
| `Answers.WritesAgain` | include/software-on-silicon/SerialNotifier.hpp:528-532 | over every run, once a transfer of an object has ended and the object has been resolved after it, a live client's next write of it is taken |
| `Answers.Reports` | include/software-on-silicon/ByteWiseTransfer.hpp:60-65 | a read lock that falls makes the answer a finished read on that side, which stays until it is resolved or the side is told to stop; nothing else makes one |
| `Answers.ReadReported` | include/software-on-silicon/SerialNotifier.hpp:515-519 | over every run the resolver finds a finished read if and only if a read of the object has ended since it looked last |
| `Answers.StopReports` | include/software-on-silicon/ByteWiseTransfer.hpp:32-43 | over every run, when the FPGA is told to stop, exactly the objects it is receiving then are reported as interrupted |
| `Interrupt.McuHearsNothingReceived` | impl/MCUFPGA.cpp:118-121 | the step by which the MCU hears of the shutdown finds it receiving nothing and leaves it so |
| `Interrupt.OnlyToldToLeave` | impl/MCUFPGA.cpp:65-70 | nothing but the stop request starts the FPGA on its way to com_shutdown |
| `Serial.Serial.constructor` | include/software-on-silicon/Serial.hpp:18-24 | a new endpoint is well-formed and in the start state |
| `Serial.Serial.ReadBits` | include/software-on-silicon/MCUFPGA.hpp:15-20 | which wires the two bits of a byte set, on either side |
| `Serial.Serial.WriteBits` | include/software-on-silicon/MCUFPGA.hpp:21-31 | which wires go into a byte |
| `Serial.Serial.SendAcknowledge` | include/software-on-silicon/MCUFPGA.hpp:32-37 | only a raised request is acknowledged |
| `Serial.Serial.SendRequest` | include/software-on-silicon/MCUFPGA.hpp:38-41 | bit 7 is raised |
| `Serial.Serial.ReceiveSignals` | include/software-on-silicon/MCUFPGA.hpp:42-51 | an acknowledge lowers bit 7 |
| `Serial.Serial.Write` | include/software-on-silicon/ByteWiseTransfer.hpp:219-242 | the registers and the byte are those of `Codec.WriteByte` |
| `Serial.Serial.Read` | include/software-on-silicon/ByteWiseTransfer.hpp:243-257 | those of `Codec.ReadByte`; false at the end of a round |
| `Serial.Serial.ReadFlush` | include/software-on-silicon/ByteWiseTransfer.hpp:258-264 | the three bytes of the register, which is cleared |
| `Serial.Serial.TransfersPending` | include/software-on-silicon/Serial.hpp:117-124 | the scan finds an ungranted request if there is one |
| `Serial.Serial.WritesPending` | include/software-on-silicon/Serial.hpp:125-132 | the scan finds a transfer if there is one |
| `Serial.Serial.ReadsPending` | include/software-on-silicon/Serial.hpp:133-140 | the scan finds a read lock if there is one |
| `Serial.Serial.WriteObject` | include/software-on-silicon/ByteWiseTransfer.hpp:100-127 | the new state and the byte are those of `Endpoint.SendData` |
| `Serial.Serial.ReadObject` | include/software-on-silicon/ByteWiseTransfer.hpp:128-170 | the new state, or the error, is that of `Endpoint.ReadObject` |
| `Serial.Serial.ReadHook` | include/software-on-silicon/Serial.hpp:151-194 | that of `Endpoint.ReadHook` |
| `Serial.Serial.TransferHook` | include/software-on-silicon/Serial.hpp:265-282 | that of `Endpoint.TransferHook` |
| `Serial.Serial.AcknowledgeHook` | include/software-on-silicon/Serial.hpp:248-264 | that of `Endpoint.AcknowledgeHook` |
| `Serial.Serial.Acknowledge` | include/software-on-silicon/Serial.hpp:49-63 | that of `Endpoint.Acknowledge` |
| `Serial.Serial.In` | include/software-on-silicon/Serial.hpp:34-66 | that of `Endpoint.In`, which the theorems above are about |
| `Serial.Serial.SendCode` | include/software-on-silicon/Serial.hpp:195-222 | the byte of a control code |
| `Serial.Serial.SendTransferRequest` | include/software-on-silicon/Serial.hpp:224-238 | the byte of a request, whose exclusive-or disturbs no signal bit |
| `Serial.Serial.GetFirstTransfer` | include/software-on-silicon/Serial.hpp:285-298 | over the arrays: the request sent names an object to be sent and not granted below which there is none, or there is none at all |
| `Serial.Serial.GetFirstSyncObject` | include/software-on-silicon/Serial.hpp:299-314 | over the arrays: the transfer opened has none below it, or there is none at all |
| `Serial.Serial.IncomingShutdownQuery` | impl/MCUFPGA.cpp:125-130 | the shutdown guard of either side |
| `Serial.Serial.OutgoingSighupQuery` | impl/MCUFPGA.cpp:131-136 | the sighup guard of either side |
| `Serial.Serial.WriteHook` | include/software-on-silicon/Serial.hpp:315-339 | the alternative tried first that applies |
| `Serial.Serial.Out` | include/software-on-silicon/Serial.hpp:68-71 | the new state and the byte, or the error, are those of `Endpoint.Out` |
| `Exchange.FpgaTurn` | include/software-on-silicon/Serial.hpp:29-74 | a turn of the FPGA object, opposite the MCU object, makes the two half turns of the link and never fails |
| `Exchange.McuTurn` | include/software-on-silicon/Serial.hpp:29-74 | so does one of the MCU object |
| `Exchange.WaitForSighup` | impl/MCUFPGA.cpp:34-42 | the wait of the FPGA's destructor ends, with both sighups sent, both objects at rest, and in both memories the copies that stood |
| `Relay.RelaySimulates` | test/test_mcufpga.cpp:12-39 | every step of the relay thread leaves the link as it is and moves the token on or leaves it |
| `Relay.TurnSimulates` | include/software-on-silicon/Serial.hpp:29-74 | every read or write of an endpoint's thread is the half turn of the link that is due |
| `Relay.OutsidePermitted` | test/test_mcufpga.cpp:12-39 | beside the threads clients and the stop request may do exactly what they may do to the link |
| `Relay.Simulates` | include/software-on-silicon/Serial.hpp:77-88 | under every interleaving a step of any thread is at most one step of the link, aborts nothing, and moves the token only onward |
| `Relay.NetRunIsRun` | test/test_mcufpga.cpp:12-39 | every run of the three threads is a run of the link: the strict alternation of half turns, and each byte read once and before the next is written, are proved and not assumed |
| `Relay.HolderMoves` | test/test_mcufpga.cpp:12-39 | a step of the thread whose turn it is moves the token or brings it one step nearer to moving, no other step takes it away or delays it, and only after the FPGA's sighup does it rest |
| `Relay.TokenMoves` | test/test_mcufpga.cpp:12-39 | in every run, for any order of the threads, the token has moved on by the time the thread it waits for has made three steps |
| `Relay.OneToken` | test/test_mcufpga.cpp:12-39 | in every reachable state exactly one of the four flags is clear or exactly one party holds the turn, once the first handshake has been flipped |
| `Relay.CopyBuffer` | test/test_mcufpga.cpp:20-23 | the copy loop copies the whole buffer |
| `Relay.ClientFunct` | test/test_mcufpga.cpp:12-27 | one call, uninterrupted: the byte and the token move to the MCU's bus, or nothing does |
| `Relay.HostFunct` | test/test_mcufpga.cpp:28-39 | and back |
| `Relay.ClientSteps` | test/test_mcufpga.cpp:12-27 | `client_funct` is its steps one after the other |
| `Relay.HostSteps` | test/test_mcufpga.cpp:28-39 | `host_funct` is its steps one after the other |
| `Ring.StartInv` | include/software-on-silicon/RingBuffer.hpp:21-30 | a ring of at least two cells starts empty |
| `Ring.NextKeeps` | include/software-on-silicon/RingBuffer.hpp:48-64 | every step of producer or consumer keeps the invariant |
| `Ring.WriteKeepsUnread` | include/software-on-silicon/ringbuffer_helpers.hpp:14-34 | the cell the producer writes is never an unread one, not even when it fails |
| `Ring.Refines` | include/software-on-silicon/ringbuffer_helpers.hpp:14-34 | the ring is a bounded queue: storing `current` enqueues, `transfer` dequeues the oldest item, every other step leaves the queue alone |
| `Ring.TransferredInOrder` | include/software-on-silicon/RingBuffer.hpp:48-64 | under every interleaving the items transferred are a prefix of the items written, and the unread count is (current - threadCurrent - 1) mod N |
| `Ring.PublishedAsGiven` | include/software-on-silicon/ringbuffer_helpers.hpp:14-34 | over every run the items published are those the producer was given, in order, but for the one under way or refused |
| `Ring.OverrunExactly` | include/software-on-silicon/ringbuffer_helpers.hpp:27-33 | the overrun branch is taken if and only if N - 1 items are unread |
| `Ring.NoLostWakeup` | include/software-on-silicon/RingBuffer.hpp:80-86 | whenever items are unread beyond what the consumer has seen of `current`, in whatever state it is, the flag is clear, or the producer is about to clear it, or the consumer has taken it and is about to look |
| `Ring.WakesOncePerCall` | include/software-on-silicon/RingBuffer.hpp:80-86 | over every run the consumer has woken no more often than the producer has cleared the flag |
| `Ring.DebtFalls` | include/software-on-silicon/RingBuffer.hpp:48-86 | whatever the producer does, every consumer step brings the transfer of what has been written one step nearer, but for looks at a set flag, and those happen only while the producer's next step clears it |
| `Ring.TransferredInTime` | include/software-on-silicon/RingBuffer.hpp:48-86 | under every interleaving all that had been written at a moment has been transferred, in order, once the consumer has made three such steps for each item then unread and four more |
| `Ring.WakingDrains` | include/software-on-silicon/RingBuffer.hpp:48-64 | with no producer step in between, a woken consumer transfers everything and waits again, in an exact number of steps |
| `Ring.RingBuffer.WriteInterleaved` | include/software-on-silicon/ringbuffer_helpers.hpp:14-34 | one call, uninterrupted, is the producer's steps one after the other: the item goes to the end of the queue; or the queue was full, and the item is in the cell that was not to be reached, with the indices as they were |
| `Ring.RingBuffer.ReadHook` | include/software-on-silicon/RingBuffer.hpp:48-64 | one call, uninterrupted: all unread items in order, and none is left |
| `Ring.RingBuffer.EventLoop` | include/software-on-silicon/RingBuffer.hpp:80-86 | nothing is transferred while the flag is set |
| `Reader.BeginInv` | include/software-on-silicon/MemoryController.hpp:395-400 | the memory starts with an empty log |
| `Reader.NextKeeps` | include/software-on-silicon/MemoryController.hpp:310-339 | every step of the writer and the reader keeps the invariant |
| `Reader.ReadsWhatWasAsked` | include/software-on-silicon/MemoryController.hpp:310-329 | over every run, which offsets give which error; any other read fills a buffer of the size supplied, from the offset supplied, from its upper end down |
| `Reader.ReadShape` | include/software-on-silicon/MemoryController.hpp:310-339 | under every interleaving a read that was asked for and is finished is, from low to high position, stored data, at most two busy elements, untouched filler; all that was committed when it was asked for is returned exactly |
| `Reader.LogIsWrites` | include/software-on-silicon/MemoryController.hpp:404-416 | over every run what is committed are the elements handed to the writer, in order, but for the one under way |
| `Reader.FillsExactly` | include/software-on-silicon/MemoryController.hpp:404-416 | the buffer-full error comes if and only if every position holds a committed element |
| `Stall.StallsExactly` | include/software-on-silicon/MemoryController.hpp:372-381 | the one step by which the reader comes to wait for a writer at rest: the writer finishes between the two halves of `wait` |
| `Stall.StalledUntilWrite` | include/software-on-silicon/MemoryController.hpp:372-381 | the one step by which it goes on: the next write; until then it reads nothing |
| `Stall.StalledExactly` | include/software-on-silicon/MemoryController.hpp:372-381 | over every run the reader is stalled if and only if such a step was made and no write has begun since |
| `Stall.FinishesExactly` | include/software-on-silicon/MemoryController.hpp:310-339 | beside a writer at rest the reader finishes its read if and only if it is not stalled |
| `Stall.EntersExactly` | include/software-on-silicon/MemoryController.hpp:372-386 | over every run the reading flag is clear exactly while an element is being read, and the reader starts on one only while the writer is not writing |
| `Stall.EnteredReads` | include/software-on-silicon/MemoryController.hpp:330-336 | wherever the writer stands, the next element is busy if and only if the write range, ends included, has its position |
| `Stall.FailedTry` | include/software-on-silicon/MemoryController.hpp:372-381 | a try that finds the writer at work changes nothing |
| `Stall.RestingRead` | include/software-on-silicon/MemoryController.hpp:310-339 | beside a writer at rest, after any run, the read that is asked for ends and returns, from its own offset on, what the memory holds, with exactly the writer's position busy |
| `Stall.WritesAlone` | include/software-on-silicon/MemoryController.hpp:404-416 | `write` is its steps one after the other: one element appended, the range moved up and the flag set, or the memory full |
| `Stall.ReaderStalls` | include/software-on-silicon/MemoryController.hpp:372-381 | nine steps from the start state the reader is stalled |
| `Reader.MemoryController.Write` | include/software-on-silicon/MemoryController.hpp:404-416 | one call, uninterrupted: the element is appended, or the memory was full |
| `Reader.MemoryController.Wait` | include/software-on-silicon/MemoryController.hpp:372-381 | true exactly while the writer is at work |
| `Reader.MemoryController.Read` | include/software-on-silicon/MemoryController.hpp:310-339 | one call, uninterrupted: exactly the element under a resting writer's position is busy, all others are the memory's; both range errors |
| `RingToMemory.CellIsBlock` | impl/RingToMemory.cpp:72-76 | the cell being copied holds the next block, whatever the producer does meanwhile |
| `RingToMemory.NextKeeps` | impl/RingToMemory.cpp:79-96 | every step of the ring and of `write` keeps the invariant |
| `RingToMemory.EndToEnd` | impl/RingToMemory.cpp:79-96 | below `bkStart` the memory is always the blocks given to the producer, in order, up to the last one completely copied; `bkStart` <= `bkEnd` <= the end; the check for unexpected writes left never fails |
| `RingToMemory.RunIsRingRun` | impl/RingToMemory.cpp:72-76 | every run holds a run of the ring with the same blocks, so that all that was shown of the ring holds here |
| `RingToMemory.WritingExactly` | impl/RingToMemory.cpp:83-90 | over every run the writing flag is clear exactly around each of the two stores to the range, and set between blocks |
| `RingToMemory.WholeMemory` | impl/RingToMemory.cpp:79-96 | over every run, what the whole memory is: up to the last element stored what was given to the producer, block after block, and above it, within the write range or beyond, what it was before |
| `RingToMemory.CopiesAlone` | impl/RingToMemory.cpp:79-96 | `write` is its steps one after the other: the block behind the blocks before it, the range past it, the flag set and nothing else changed |
| `RingToMemory.RangeFailsExactly` | impl/RingToMemory.cpp:82-93 | the range error is raised if and only if one more block does not fit |
| `RingToMemory.BlockWriter.constructor` | impl/RingToMemory.cpp:61-70 | the memory is filled with the filler |
| `RingToMemory.BlockWriter.Write` | impl/RingToMemory.cpp:79-96 | one call, uninterrupted: the block is appended and nothing above it changes, or nothing changes; the check at the end is dead |
| `BlockReader.HoldsWriterRun` | impl/RingToMemory.cpp:72-96 | the reader disturbs nothing: every run of producer, consumer and reader holds a run without the reader that ends in the same ring, memory and range |
| `BlockReader.ReadsWhatWasAsked` | include/software-on-silicon/MemoryController.hpp:310-329 | errors, offset and size of a read beside the block writer are those asked for |
| `BlockReader.SoundRead` | include/software-on-silicon/MemoryController.hpp:310-339 | under every interleaving of the three threads a finished read returns, at every position, what was given to the producer for it, or busy, or what was there before any write; and exactly what was given wherever it had been committed when the read was asked for |
| `BlockReader.ShapedRead` | include/software-on-silicon/MemoryController.hpp:310-339 | if no end of the write range is stale when an element is taken, it is data, then at most one busy element more than a block has elements, then filler |
| `BlockReader.LeaksExactly` | include/software-on-silicon/MemoryController.hpp:330-336 | which of the three an element is, and that one not yet committed is let through only by a stale end |
| `BlockReader.StalledExactly` | include/software-on-silicon/MemoryController.hpp:372-386 | over every run the reader waits for nobody if and only if the consumer has set the writing flag between the two halves of `wait` and has not cleared it since |
| `BlockReader.ShapeIsLost` | include/software-on-silicon/MemoryController.hpp:330-336 | a run with blocks of two elements in which that happens |

## Left out

- Threads, `yield`, sleeps, timers, the loop and bootstrap classes and the controller templates:
  wiring.
- `REST::write`, the resolver's copies between client and object buffers, and its read and write end
  commands: they move only the first byte of an object.
- Descriptors and tuples of objects: object memory is one sequence of bytes per id, held in an
  array, so that two descriptors with overlapping memory are not modelled.
- `read_byte` and `write_byte` for buffers longer than the one byte that is used: their lengths are
  computed from start to start.
- `clear_read_receive` beyond its abort, and the aborts that come after another abort in the same
  branch.
- The destructor check of `Serial` for pending reads: it follows from the clean shutdown.
- `bytearrayToBitset` and `bitsetToBytearray` for widths other than eight times the byte count, and
  the rounding of `pow` beyond 2^53.
- The aborts of the resolver on a write of an object id that does not exist: no state has changed by
  then.
- Hardware data races on one element: every element access is one step.
- Transfer counters, debug output, error texts, signal handlers.
- Serial.Serial.In: `read_byte` and `handshake` are in `Relay`, so the byte is a parameter.
- Serial.Serial.Out: the byte is a result, for the same reason.
