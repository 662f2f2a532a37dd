# Verified model of the car drivers

A Dafny model of the stateful parts of the remote-controlled car: the kernel drivers that
store bytes, carry sensor readings and motor commands, queue messages and measure distance.
Each driver object is a class over arrays and linked nodes, updated in place as the C code
does; its methods are proved against specification functions on values, and the theorems
about whole runs are proved about those functions.

| files | what they model |
|---|---|
| `Ring.dfy` | the circular buffer shared by both tunnels of `pod/driver` |
| `SensorTunnel.dfy` | the sensor byte pipe, one call at a time, over a real array |
| `SensorProtocol.dfy` | the same pipe under any number of processes: a state machine split at every `down`, `up`, unlocked check, sleep and wake-up |
| `SensorProofs.dfy`, `SensorFiles.dfy`, `SensorSleep.dfy` | what one step of that machine keeps |
| `SensorCalls.dfy` | what one call does when nothing interferes: the step machine against the operations of `SensorTunnel.dfy` |
| `SensorRuns.dfy`, `SensorDeadlock.dfy` | theorems over whole runs, and a run that loses a wake-up |
| `MotorTunnel.dfy`, `MotorRuns.dfy` | the motor command tunnel over a real array, and its runs call by call |
| `MotorProtocol.dfy` | the motor tunnel under any number of processes |
| `MotorRefines.dfy`, `MotorWitness.dfy` | every interleaving does what its own calls do in the order of their copies, and every sequence of calls is made by some run |
| `Addressing.dfy`, `Store.dfy`, `StoreRuns.dfy` | the quantum-set store as a value, and its runs |
| `QuantumDevice.dfy` | the quantum-set store as nodes, tables and blocks on the heap, with an allocation ledger |
| `TunnelList.dfy`, `TunnelDevice.dfy` | the sentinel list of `car/tunnel` and the message device on top of it |
| `Sonar.dfy` | the ultrasonic sensor |

What the kernel decides is a parameter or a nondeterministic choice: whether an allocation is
granted, what fresh memory holds, whether a user copy faults and what it leaves behind, when a
signal arrives, what the echo pin shows and what the clock reads.

## What the proofs found

- **A lost wake-up in the sensor tunnel.** Every open resets both pointers and wakes nobody. A
  writer that sleeps for space is then stranded beside an empty ring. `ResetStrands` says
  exactly when an open does this; `OpenStrandsBoth` is a run of two processes that ends with both
  asleep, one for bytes and one for space, and short of a signal neither can take another step;
  only a third process could still wake them. A run loses no wake-up if and only if it has no
  such open (`OrderlyIsExact`).
- **A lost semaphore in the motor tunnel.** An ioctl that finds less than five contiguous free
  bytes returns with the semaphore down (`pod/driver/motor_tun.c:183`). From then on the
  semaphore stays with a process that has left, nobody enters again, and neither ring nor device
  ever changes, not even by an open (`RefusalEndsTunnel`). `ExactCapacity` gives the answer of
  every ioctl after any run of calls, for every size, command and read length;
  `LostIffOverfull` says exactly which runs lose the semaphore, `RefusedExactlyWhen` the same
  under any interleaving, and `RunLosesIffTwoCells` that every tunnel of two cells or more has
  such a run. With N a multiple of five and readers that take whole frames, it is the first
  command sent while N/5 - 1 frames are unread (`FrameCapacity`).
- **Buffers that are not a multiple of five** take at most N/5 commands between two opens,
  however fast they are read, and the next command destroys the tunnel, unless it finds the ring
  full to the last cell and waits (`OneLapOnly`).
- **An unrecognised ioctl** queues five bytes without writing them. On the first lap after an
  open they are what the block held, which in a fresh block is uninitialised memory
  (`UnrecognisedQueuesOldCells`); later they are the command accepted exactly N/5 commands
  before (`UnrecognisedReplays`); `UnrecognisedAcrossProcesses` says so of any interleaving. The
  reader decodes a frame to the command that was sent if and only if that command is one of the
  five (`FramesReachReaders`).
- **An ioctl without a buffer.** A file opened neither for reading nor for writing is not counted,
  so the buffer can be freed while it is open; `IoctlOutlivesBuffer` is a run in which its ioctl
  is about to copy. Through any other file the buffer is there (`MotorBufferLifetime`).
- **Messages reported as written but lost.** `enqueue` returns 1 when it cannot allocate a node
  and `DeviceWrite` looks only for negative codes; a faulting `DeviceRead` drops the message it
  took. `FaithfulIffLossless` shows that these two calls are the only ways to lose a message.
- **`concat_list` with an empty target** leaves a list that runs into a freed sentinel and
  satisfies no reading of the list invariant (`SeveredIsNeverLinked`).
- **The distance on a 32-bit `long`** is right exactly up to 25264513 ns (`NarrowDistance`).

Where comments and code disagree the code is followed: the capacity constant of the list is
100, not the 10000 its comment speaks of (`car/tunnel/buffer.h:70`), and `full` tests for 100.

## Model

| member | source | states |
|---|---|---|
| Rings.SpaceIsRoom | pod/driver/sensor_tun.c:149-154 | the modulus in spacefree counts the free cells, for every position of the two pointers |
| Rings.RoomAndPending | pod/driver/sensor_tun.c:149-154 | free cells and queued bytes add up to one less than the buffer; the ring is empty exactly when the pointers meet |
| Rings.PendingIsCircular | pod/driver/sensor_tun.c:16-24 | the queue is the cells from rp on, modulo the size |
| Rings.ReadTakesPrefix | pod/driver/sensor_tun.c:109-119 | a read removes a prefix of the queue, at least one byte if it asks for any |
| Rings.ReadStopsAtEnd | pod/driver/sensor_tun.c:109-112 | a read returns fewer bytes than asked for only up to the end of the queue or of the block |
| Rings.WriteAppends | pod/driver/sensor_tun.c:170-182 | a write appends its bytes to the queue |
| Rings.WriteCountFacts | pod/driver/sensor_tun.c:170-174 | a write never takes more than there is room for, is cut short only where the ring is full or the block ends, and takes a byte whenever there is room and a byte to take |
| Rings.OverwriteAt | pod/driver/sensor_tun.c:176-180 | a copy changes the cells it covers and no other |
| Rings.FaultedWriteKeepsQueue | pod/driver/sensor_tun.c:176-179 | a user copy that faults partway leaves the queue as it was |
| Rings.TwoWritesSuffice | pod/driver/sensor_tun.c:170-182 | whatever fits in the free space is accepted whole, in order, by at most two writes |
| Rings.TwoReadsSuffice | pod/driver/sensor_tun.c:109-119 | at most two reads drain the whole queue, in order |
| SensorTunnels.SensorTunnel.constructor | pod/driver/sensor_tun.c:252-258 | a new device has no buffer and no open file |
| SensorTunnels.SensorTunnel.Open | pod/driver/sensor_tun.c:46-64 | an open allocates the buffer if needed, sets both pointers to the start and counts the file; a failed allocation changes nothing |
| SensorTunnels.SensorTunnel.Release | pod/driver/sensor_tun.c:73-82 | the buffer is freed exactly when both counts are back at zero |
| SensorTunnels.SensorTunnel.Read | pod/driver/sensor_tun.c:86-125 | EAGAIN or sleep exactly on an empty queue; otherwise the oldest bytes leave the queue, as many as asked for unless queue or block ends, or a fault leaves it alone |
| SensorTunnels.SensorTunnel.HandOut | pod/driver/sensor_tun.c:113-119 | the bytes copied out are those at rp, and rp advances past them and wraps |
| SensorTunnels.SensorTunnel.Spacefree | pod/driver/sensor_tun.c:149-154 | the free space left beside the queued bytes |
| SensorTunnels.SensorTunnel.Write | pod/driver/sensor_tun.c:156-191 | EAGAIN or sleep exactly on a full ring; otherwise a prefix of the caller's bytes joins the queue, all of them unless the ring fills or the block ends, or a fault leaves it alone |
| SensorTunnels.SensorTunnel.Poll | pod/driver/sensor_tun.c:193-207 | readable and writable exactly when a one-byte call would move that byte now |
| SensorCalls.OpenCall | pod/driver/sensor_tun.c:39-64 | an open made alone, whatever the others are doing outside the semaphore: fresh or old block, empty queue, the file in the mode asked for; a refused allocation changes nothing |
| SensorCalls.CloseCall | pod/driver/sensor_tun.c:69-84 | a close made alone takes its file and counts away, and the buffer with the last count |
| SensorCalls.ReadCall | pod/driver/sensor_tun.c:86-125 | a read made alone on a non-empty ring hands out its oldest bytes and wakes the writers, or changes nothing on a fault |
| SensorCalls.EmptyReadCall | pod/driver/sensor_tun.c:95-107 | a read made alone on an empty ring returns at once with O_NONBLOCK and falls asleep without it |
| SensorCalls.WriteCall | pod/driver/sensor_tun.c:156-191 | a write made alone with room takes a prefix of the caller's own bytes and wakes the readers, or leaves the queue on a fault |
| SensorCalls.FullWriteCall | pod/driver/sensor_tun.c:127-146 | a write made alone into a full ring returns at once with O_NONBLOCK and falls asleep without it |
| SensorCalls.PollCall | pod/driver/sensor_tun.c:193-207 | a poll made alone returns at once exactly if what it asks about is there, and falls asleep otherwise |
| SensorCalls.TriesAgain | pod/driver/sensor_tun.c:95-144 | a process that is woken, or finds the ring changed before it falls asleep, takes the semaphore and tests again |
| SensorFiles.StepTallies | pod/driver/sensor_tun.c:46-82 | a step changes the open files only by a successful open, in the mode it asked for, or a close |
| SensorProofs.StepKeepsLock | pod/driver/sensor_tun.c:90-120 | no step of any process lets two into the critical section or leaves it with the semaphore down |
| SensorProofs.RingStep | pod/driver/sensor_tun.c:86-191 | every step keeps the pointers in range and the queue law, also between a pointer advance and its wrap |
| SensorFiles.CloseKeepsDevice | pod/driver/sensor_tun.c:73-82 | a close keeps counts, files and buffer in agreement and frees the buffer with the last counted file |
| SensorFiles.UsersStep | pod/driver/sensor_tun.c:39-84 | every call keeps its file open, in the right mode, until it is done with the device |
| SensorSleep.ResetStrands | pod/driver/sensor_tun.c:56-58 | an open keeps the guarantee for sleeping writers if and only if none is left waiting or the ring has one cell |
| SensorRuns.MutualExclusion | pod/driver/sensor_tun.c:90-120 | in every reachable state at most one process is inside, and none sleeps or has returned holding the semaphore |
| SensorRuns.CountsOfCalls | pod/driver/sensor_tun.c:46-82 | in every run the open files are those that its calls opened and did not close, in the modes they asked for, and the counts are theirs |
| SensorRuns.BufferLifetime | pod/driver/sensor_tun.c:46-82 | counts equal the open files; the buffer is there under every read, write and countable open file, and gone when none is open; a read or write in progress has its file open in that mode; a non-blocking call never sleeps |
| SensorRuns.FirstInFirstOut | pod/driver/sensor_tun.c:86-191 | in every reachable state the bytes accepted since the open are those delivered, followed by the ring |
| SensorRuns.ConservedBetweenOpens | pod/driver/sensor_tun.c:86-191 | between opens: bytes queued before plus bytes accepted equal bytes delivered plus bytes queued after, in order |
| SensorRuns.ReadMovesOldest | pod/driver/sensor_tun.c:109-119 | a read that reaches its copy hands out the oldest bytes, none on a fault, otherwise as many as asked for unless queue or block ends first, and at least one |
| SensorRuns.WriteMovesPrefix | pod/driver/sensor_tun.c:170-182 | a write that reaches its copy accepts a prefix: nothing on a fault, otherwise all unless the ring fills or the block ends first, and at least one byte |
| SensorRuns.ReadersAreWoken | pod/driver/sensor_tun.c:95-107 | whoever sleeps for bytes faces an empty ring or a writer on its way to the wake-up, in every run |
| SensorRuns.StepSleepOut | pod/driver/sensor_tun.c:127-146 | one step keeps the guarantee for sleeping writers exactly when it is not a stranding open |
| SensorRuns.OrderlyIsExact | pod/driver/sensor_tun.c:56-146 | the guarantee for sleeping writers holds in every state of a run if and only if the run has no stranding open |
| SensorRuns.WritersAreWoken | pod/driver/sensor_tun.c:127-146 | whoever sleeps for space faces a full ring or a reader on its way to the wake-up, in every run without a stranding open |
| SensorRuns.NeverBothAsleep | pod/driver/sensor_tun.c:95-144 | with two cells or more, a reader and a writer are never both asleep with no wake-up on its way |
| SensorRuns.WakeArrives | pod/driver/sensor_tun.c:117-122 | a wake-up on its way is never blocked and reaches every process registered |
| SensorRuns.WakesItsQueue | pod/driver/sensor_tun.c:117-122 | a wake-up after a read reaches those registered for space, one after a write those registered for bytes, both the polls, and nobody else |
| SensorRuns.SignalEndsCall | pod/driver/sensor_tun.c:46-144 | in every reachable state, exactly where a signal ends a call; it changes nothing else |
| SensorDeadlock.OpenStrandsBoth | pod/driver/sensor_tun.c:56-58 | a run with one extra open ends with reader and writer asleep on an empty ring and no step possible but a signal |
| MotorTunnels.FrameOf | pod/driver/ioctl_car_cmd.h:20-28 | exactly the five commands have a frame, and its bytes spell the text that the header gives the command |
| MotorTunnels.DecodeInvertsFrame | car/real-car/RealCarRunner.c:159-178 | the real car's four-byte comparison gives back each of the five commands |
| MotorTunnels.DecodeIsExact | car/real-car/RealCarRunner.c:159-178 | four bytes mean a command other than stop exactly if its frame starts with them; all others mean stop |
| MotorTunnels.CommandNumbers | pod/driver/ioctl_car_cmd.h:32-36 | the five numbers are those that _IOW builds |
| MotorTunnels.MotorTunnel.constructor | pod/driver/motor_tun.c:280-286 | a new tunnel has no buffer, no open file and its semaphore free |
| MotorTunnels.MotorTunnel.Open | pod/driver/motor_tun.c:48-66 | an open empties the queue, unless the semaphore is lost: then it changes nothing |
| MotorTunnels.MotorTunnel.Release | pod/driver/motor_tun.c:75-84 | the buffer goes with the last count, unless the semaphore is lost |
| MotorTunnels.MotorTunnel.Spacefree | pod/driver/motor_tun.c:150-155 | the free cells of the ring |
| MotorTunnels.MotorTunnel.Ioctl | pod/driver/motor_tun.c:157-217 | the answer and the whole new state are those of the transition function, including the refusal that keeps the semaphore |
| MotorTunnels.MotorTunnel.Put | pod/driver/motor_tun.c:186-202 | a recognised command overwrites the five cells at wp with its frame, any other leaves them |
| MotorTunnels.MotorTunnel.Read | pod/driver/motor_tun.c:88-126 | which outcome a read has, the bytes it hands out and the pointer afterwards |
| MotorTunnels.MotorTunnel.Poll | pod/driver/motor_tun.c:219-233 | readable exactly when a read moves a byte; writable exactly when an ioctl would not sleep, which is not a promise to accept it |
| MotorRuns.RunKeepsQueue | pod/driver/motor_tun.c:109-207 | in every run, for every size, command and read length, the frames queued are the bytes delivered followed by the ring |
| MotorRuns.FramesArriveInOrder | pod/driver/motor_tun.c:109-207 | in every run of every size the i-th frame read decodes by four bytes to the i-th command accepted if and only if that command is recognised |
| MotorRuns.DeliversWholeFrames | pod/driver/motor_tun.c:109-119 | in a ring of a multiple of five, readers that ask for whole frames have received whole frames |
| MotorRuns.ReadsWholeFrames | pod/driver/motor_tun.c:109-119 | in a ring of a multiple of five, a read for whole frames returns at least one and splits none |
| MotorRuns.WritePointerInFives | pod/driver/motor_tun.c:204-207 | for every size and every run wp stays a multiple of five |
| MotorRuns.ExactCapacity | pod/driver/motor_tun.c:128-183 | after any run of any size, which answer an ioctl gets: it waits on a ring full to the last cell; it is accepted while less than N - 5 bytes are pending if five divides N, and for the first N/5 commands if not; else it is refused with the ring unchanged |
| MotorRuns.FrameCapacity | pod/driver/motor_tun.c:128-183 | in a ring of a multiple of five read by whole frames no ioctl ever sleeps, and one is accepted if and only if fewer than N/5 - 1 frames are pending |
| MotorRuns.LostIffOverfull | pod/driver/motor_tun.c:182-184 | a run loses the semaphore if and only if a command arrives when the ring is not full and has no room for a frame |
| MotorRuns.LosingRunLoses | pod/driver/motor_tun.c:182-184 | for every size from two cells on, a run of accepted commands and one refused that loses the semaphore |
| MotorRuns.LosableIffTwoCells | pod/driver/motor_tun.c:128-184 | some run loses the semaphore if and only if the buffer has at least two cells |
| MotorRuns.RefusalIsForever | pod/driver/motor_tun.c:182-184 | after a refused ioctl no later whole call of any run changes anything; `RefusalEndsTunnel` adds the calls in progress |
| MotorRuns.OneLapOnly | pod/driver/motor_tun.c:175-207 | if five does not divide N, at most N/5 commands are accepted between opens; the next one, on a ring not full, leaves a tunnel that nothing changes again |
| MotorRuns.UnrecognisedReplays | pod/driver/motor_tun.c:186-204 | an unrecognised command queues the frame accepted one lap, N/5 commands, before |
| MotorRuns.UnrecognisedQueuesOldCells | pod/driver/motor_tun.c:186-204 | on the first lap an unrecognised command queues the old cells of its slot, for every size |
| MotorRuns.ReopenKeepsCells | pod/driver/motor_tun.c:51-60 | an open clears no cell: on the first lap after it an unrecognised command queues what calls before the open left there |
| MotorRuns.ReadIsPrefix | pod/driver/motor_tun.c:109-112 | a read takes a prefix of the queue, shorter than asked for only up to its end or the end of the block |
| MotorProtocol.RefusalLeaks | pod/driver/motor_tun.c:182-184 | the refusing step leaves the semaphore down with nobody inside and changes nothing else |
| MotorProtocol.StepStaysSound | pod/driver/motor_tun.c:88-217 | every other step keeps the semaphore down exactly while its holder is inside, and the queue in order |
| MotorProtocol.IoctlOnFull | pod/driver/motor_tun.c:128-148 | an ioctl on a full ring returns at once with O_NONBLOCK, and else waits and sleeps only while the ring stays full |
| MotorProtocol.LostExactlyByRefusal | pod/driver/motor_tun.c:157-217 | in every reachable state the semaphore is in order if no ioctl of the run was refused, and lost if one was |
| MotorProtocol.MotorCountsOfCalls | pod/driver/motor_tun.c:48-84 | in every run the open files are those that its calls opened and did not close, in the modes they asked for, and the counts are theirs |
| MotorProtocol.RefusalEndsTunnel | pod/driver/motor_tun.c:182-184 | after a refusal, in all continuations, no process is ever inside, ring, device and history stay, and a release or poll waiting for the semaphore never gets it |
| MotorProtocol.MotorBufferLifetime | pod/driver/motor_tun.c:48-84 | in every run: counts equal the open files; the buffer is there under every read, and under every ioctl through a file that is readable or writable |
| MotorProtocol.MotorReadersAreWoken | pod/driver/motor_tun.c:97-210 | whoever sleeps for bytes faces an empty ring or an ioctl on its way to the wake-up, in every run, also after a refusal |
| MotorProtocol.MotorStepSleepOut | pod/driver/motor_tun.c:128-148 | one step keeps the guarantee for sleeping ioctls exactly when it is not a stranding open |
| MotorProtocol.MotorOrderlyIsExact | pod/driver/motor_tun.c:48-148 | the guarantee for ioctls and polls waiting for space holds in every state of a run if and only if no open strands one |
| MotorRefines.RunsRefineCalls | pod/driver/motor_tun.c:88-217 | every run of interleaved steps leaves ring, semaphore and history as the calls of that run since the last open do, one after the other in the order of their copies |
| MotorRefines.MotorQueue | pod/driver/motor_tun.c:88-217 | in every interleaving the bytes accepted, five for each ioctl not refused, are those delivered followed by the ring |
| MotorRefines.FramesReachReaders | pod/driver/motor_tun.c:88-217 | in every interleaving the i-th five bytes delivered decode to the command of the i-th ioctl not refused, if and only if that command is recognised |
| MotorRefines.WholeFramesReachReaders | pod/driver/motor_tun.c:109-119 | in every interleaving, if five divides the size and every read asks for whole frames, whole frames are delivered and whole frames are waiting |
| MotorRefines.RefusedExactlyWhen | pod/driver/motor_tun.c:173-184 | in every reachable state, whether an ioctl about to copy is refused: by the bytes pending if five divides N, by the commands taken in if not |
| MotorRefines.UnrecognisedAcrossProcesses | pod/driver/motor_tun.c:186-204 | in every interleaving an unrecognised command queues the bytes of one lap before or, on the first lap, the old cells of the block |
| MotorWitness.CallsAreRuns | pod/driver/motor_tun.c:48-217 | the converse refinement: whatever a sequence of whole calls after an open does, some run of steps does |
| MotorWitness.RunLosesIffTwoCells | pod/driver/motor_tun.c:173-184 | some run of some processes loses the semaphore if and only if the block has two cells or more |
| MotorWitness.IoctlOutlivesBuffer | pod/driver/motor_tun.c:48-84 | for every size from two cells on, a run in which an ioctl through a file of neither mode is about to copy into a freed buffer |
| Addressing.Split | pod/driver/main.c:136-139 | item, slot and byte recompose to the offset, and agree with a single division by the quantum |
| Addressing.Bijection | pod/driver/main.c:174-177 | every triple in range is the address of exactly one offset |
| Addressing.SameQuantum | pod/driver/main.c:136-139 | two offsets share item and slot exactly when they share a quantum |
| Stores.WriteKeepsWf | pod/driver/main.c:179-206 | after any write, failed or not, the size stays within the list |
| Stores.PrepareOutcome | pod/driver/main.c:179-192 | for any answers of the allocator, which items, tables and quanta a write leaves behind |
| Stores.WriteFailsIff | pod/driver/main.c:179-201 | a write reports ENOMEM exactly if the allocator refuses something that is missing, EFAULT exactly if its copy then faults |
| Stores.WritePeek | pod/driver/main.c:179-206 | a write stores exactly the bytes it reports and changes no byte outside its range |
| Stores.ReadPeek | pod/driver/main.c:131-154 | a read returns the bytes stored at consecutive offsets, as many as size, quantum and count allow, none from a hole |
| StoreRuns.RunRefines | pod/driver/main.c:119-241 | over any run of opens, seeks, reads and writes with any failures the store refines a sparse file |
| StoreRuns.ReadsLastWrite | pod/driver/main.c:119-241 | every byte read at a written offset is the last one written there, and the size never exceeds the allocated list |
| StoreRuns.OnlyWritesChange | pod/driver/main.c:77-241 | only writes change the store, only a write-only open empties it, to the module's parameters; no call moves another file's position |
| StoreRuns.SeekSets | pod/driver/main.c:217-241 | an open starts at 0; a seek sets the position to the offset, the position plus it or the size plus it, or leaves it |
| StoreRuns.PositionMoves | pod/driver/main.c:119-211 | without open or seek a position moves by exactly the bytes that its own file's reads and writes report, in any run |
| StoreRuns.WritesConcatenate | pod/driver/main.c:161-211 | writes in a row through one file, failed or cut short as they may be, store the bytes they report one after the other |
| StoreRuns.ReadsConcatenate | pod/driver/main.c:119-159 | reads in a row through one file hand out the stored bytes one after the other |
| StoreRuns.WritesAllExists | pod/driver/main.c:179-206 | with memory to be had, repeated writes come to an end with everything written |
| StoreRuns.WritesAllFacts | pod/driver/main.c:174-206 | a whole transfer stores every byte in place, touches no other stored byte and takes one call for each quantum |
| StoreRuns.RoundTrip | pod/driver/main.c:119-211 | what was written comes back in the same number of calls, (p % quantum + n - 1) / quantum + 1 |
| StoreRuns.DrainStopsAtFirstGap | pod/driver/main.c:131-154 | reading to the end delivers exactly the offsets before the size or the first unallocated quantum |
| QuantumDevices.Device.constructor | pod/driver/main.c:307-312 | a new device is empty |
| QuantumDevices.Device.Append | pod/driver/main.c:95-107 | a missing list item is added at the end, or the device stays as it was |
| QuantumDevices.Device.Follow | pod/driver/main.c:91-113 | the walk ends at the item asked for, adding what the allocator grants, or reports failure with the part added kept |
| QuantumDevices.Device.MakeTable | pod/driver/main.c:182-187 | a cleared table is hung in, or nothing changes |
| QuantumDevices.Device.MakeBlock | pod/driver/main.c:188-192 | an uncleared quantum is hung in, or nothing changes |
| QuantumDevices.Device.Prepare | pod/driver/main.c:179-192 | how far the three allocations get, with what is allocated exactly what is reachable |
| QuantumDevices.Device.Locate | pod/driver/main.c:174-177 | the two divisions give the address of the offset |
| QuantumDevices.Device.Write | pod/driver/main.c:161-211 | the answer, position and whole new device are those of the specification, whatever fails |
| QuantumDevices.Device.Read | pod/driver/main.c:119-159 | the bytes are those of the specification; a read allocates nothing and changes nothing but the position |
| Stores.SeekLaws | pod/driver/main.c:217-241 | an absolute seek depends on neither size nor position, the three ways agree, relative seeks add up and undo one another, and exactly negative targets and unknown modes are refused |
| QuantumDevices.Device.Llseek | pod/driver/main.c:217-241 | the position after a seek, or -EINVAL and the old position |
| QuantumDevices.Device.FreeEntries | pod/driver/main.c:51-52 | the blocks of one item are freed, each once, and no other |
| QuantumDevices.Device.FreeItem | pod/driver/main.c:50-57 | one item is freed with its table and blocks, after its successor has been read |
| QuantumDevices.Device.Trim | pod/driver/main.c:43-64 | every allocation of the device is freed exactly once and the device is empty |
| QuantumDevices.Device.Open | pod/driver/main.c:77-83 | a write-only open empties the device, any other leaves it |
| TunnelLists.List.constructor | car/tunnel/init_list.c:3-14 | a new list is well-formed and empty, its sentinels holding the error key |
| TunnelLists.List.ResetList | car/tunnel/init_list.c:16-21 | the items are cut off whatever the links were; the list is well-formed and empty afterwards exactly if the rear sentinel still points to itself |
| TunnelLists.List.Between | car/tunnel/between.c:5-24 | inserts exactly between adjacent nodes, or changes nothing and says why |
| TunnelLists.List.Enqueue | car/tunnel/between.c:25-28 | the new node is the last item; failure is reported as 1 |
| TunnelLists.List.RemoveItem | car/tunnel/remove.c:5-24 | any item is unlinked and the rest stays in order; sentinels are refused |
| TunnelLists.List.Dequeue | car/tunnel/remove.c:25-29 | the first item leaves the list, null if there is none |
| TunnelLists.List.ConcatList | car/tunnel/between.c:29-45 | for any two lists: with a non-empty target they are joined and the target's sentinels unreachable; with an empty one the list is severed; with a shared rear sentinel one backward link changes; sizes are added |
| TunnelLists.List.ShareNothing | car/tunnel/between.c:29-45 | two lists with different rear sentinels share no node |
| TunnelLists.List.SelfSpliceIsNeverLinked | car/tunnel/between.c:34-41 | a list with an item spliced into itself is well-formed for no sequence of nodes |
| TunnelLists.List.SeveredIsNeverLinked | car/tunnel/between.c:34-43 | a severed list is well-formed for no sequence of nodes |
| TunnelLists.List.Find | car/tunnel/find.c:4-18 | the first item with the key, or rear; the whole-node comparison never ends the search early |
| TunnelLists.List.RepairSize | car/tunnel/size.c:8-17 | terminates and restores the size from any wrong value |
| TunnelLists.List.Full | car/tunnel/size.c:19-28 | 1 exactly when the list holds 100 items |
| TunnelDevices.KernelBuffer | car/tunnel/driver.c:139-146 | the message in a cleared buffer of 512 bytes |
| TunnelDevices.PaddedAt | car/tunnel/driver.c:139-146 | the message first, zeros up to 512 bytes |
| TunnelDevices.WriteCode | car/tunnel/driver.c:142-160 | -EFAULT exactly on a faulting copy, -ENOMEM exactly without a list, else the length |
| TunnelDevices.Device.Write | car/tunnel/driver.c:135-160 | which code a write returns and what it queues; the code does not tell a failed node allocation |
| TunnelDevices.Device.Read | car/tunnel/driver.c:98-127 | the oldest message leaves the queue; it reaches the reader unless the user copy faults |
| TunnelDevices.RunIsFifo | car/tunnel/driver.c:98-160 | in every run messages come off in the order they were queued |
| TunnelDevices.FaithfulIffLossless | car/tunnel/driver.c:98-160 | the messages reported written are those read plus those waiting, padded and in order, if and only if no call of the run loses one |
| TunnelDevices.ReadersSeeSent | car/tunnel/driver.c:98-160 | without a losing call the i-th read gives the bytes of the i-th message written, then zeros |
| TunnelDevices.ReportedButLost | car/tunnel/driver.c:155-159 | a write whose node cannot be allocated returns its length and loses the message |
| Sonar.Poll | car/driver/sr04.c:124-132 | a polling loop ends, and accepts exactly the changes seen within its first 999999 samples |
| Sonar.MeasureDistance | car/driver/sr04.c:99-153 | zero unless both echo changes are seen in time, else the scaled difference of the two stamps |
| Sonar.TruncatedDifference | car/driver/sr04.c:126-148 | the 32-bit subtraction gives the true difference up to whole turns of the clock, and exactly if it is below one turn |
| Sonar.WideDistance | car/driver/sr04.c:150 | with a 64-bit long: floor(17 * diff / 10^6), monotone, at most 73014 |
| Sonar.DistanceOfEcho | car/driver/sr04.c:99-153 | from clock to result: an echo shorter than 2^32 ns gives floor(17 * duration / 10^6), across a wrap of the clock |
| Sonar.NarrowDistance | car/driver/sr04.c:150 | with a 32-bit long the result is right if and only if diff is at most 25264513 |
| Sonar.NarrowWraps | car/driver/sr04.c:150 | beyond that a 32-bit long drops whole turns of the product, and the result is at most 429 |

## Left out

- TunnelDevices.Device.Write: takes messages of at most 512 bytes; a longer one overruns the kernel buffer, which is not modelled.
- QuantumDevices.Device.Locate: the item number is an unbounded integer; the source narrows it to an int, which matters only beyond 2^31 items.
- MotorProtocol goes on with the old cells when an ioctl copies into a freed buffer; what that memory has become is not modelled.
- TunnelLists.List.ConcatList: the freeing of the target's sentinels is modelled only by their being unreachable; after splicing a list into itself its own sentinels are freed memory.
- SensorProtocol and MotorProtocol read rp and wp of an unlocked check in one step; a check torn between two processors is not modelled.
- StoreRuns takes each call of the bare device as one step, since its semaphore covers the whole call; sizes and positions are unbounded integers.
- kmalloc of the sentinels, the message buffer and the device structures is taken to succeed where the source does not look at the result.
- The freed blocks of `empty_list` and `free_list`, which read a node after freeing it, and `index_of`, `index_node` and `swap_struct`.
- Character-device registration, module loading, GPIO and I2C access, and the choice of a list by device number.
- The Go relays, shell scripts, JSON parsing and the branch tables of the runners; of `RealCarRunner.c` only the command table is used.
- The near copies under `driver-real-car` and `car/virt-cartun`.
