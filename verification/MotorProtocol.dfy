/**
 The motor tunnel of pod/driver/motor_tun.c under any number of processes.  Its open, release,
 read, wait loop and poll are those of the sensor tunnel, line for line; an ioctl is a write of
 one five-byte frame whose copy step may instead return with the semaphore down.
 */
module MotorProtocol {
  import opened Bytes
  import opened Rings
  import opened MotorTunnels
  import opened SensorProtocol
  import opened SensorProofs
  import opened SensorFiles
  import opened SensorSleep

  function CommandOf(op: Op): nat {
    if op.Ioctl? then op.command else 0
  }

  predicate AtCopy(s: State, step: Step) {
    step.Run? && step.p in s.procs && s.procs[step.p].pc == In(WriteCopy)
  }

  /** The step that returns -1 from the middle of the critical section. */
  predicate Refuses(s: State, step: Step) {
    AtCopy(s, step) && Wf(s.ring) && WriteCount(s.ring, CMD_STR_LEN) < CMD_STR_LEN
  }

  // As in the sensor tunnel, `RingOk` shows that the test of the pointers never fails.

  function IoctlCopy(s: State, p: Pid): State
    requires p in s.procs
  {
    var r := s.ring;
    if !Wf(r) then Move(s, p, In(Up(Rest)))
    else if WriteCount(r, CMD_STR_LEN) < CMD_STR_LEN then s.(procs := s.procs[p := RESTING])
    else
      var f := Queued(r, CommandOf(s.procs[p].op));
      Move(s, p, In(WriteWrap)).(ring := Ring(Overwrite(r.cells, r.wp, f), r.rp, r.wp + |f|),
                                 hist := s.hist.(accepted := s.hist.accepted + f))
  }

  function MotorDo(s: State, step: Step): State
    requires step.p in s.procs
  {
    if AtCopy(s, step) then IoctlCopy(s, step.p) else Do(s, step)
  }

  predicate MotorEnabled(s: State, step: Step) {
    step.p in s.procs && Allowed(s, step) && (step.Begin? ==> !step.op.Write?)
  }

  ghost predicate MotorLeads(s: State, steps: seq<Step>, t: State)
    decreases |steps|
  {
    if steps == [] then s == t
    else MotorEnabled(s, steps[0]) && MotorLeads(MotorDo(s, steps[0]), steps[1..], t)
  }

  // ----- the invariant

  /** The semaphore is down and nobody is left to raise it. */
  ghost predicate Leaked(s: State) {
    s.sem.Some? && forall p :: p in s.procs ==> !s.procs[p].pc.In?
  }

  /** The semaphore is down exactly while its holder is inside. */
  ghost predicate Sound(s: State) {
    && LockOk(s.procs, s.sem)
    && RingOk(s.ring, Holder(s.procs, s.sem))
    && WriteGuard(s.ring, Holder(s.procs, s.sem))
  }

  ghost predicate NoWrites(procs: Procs) {
    forall p :: p in procs ==> !procs[p].op.Write?
  }

  ghost predicate MotorInvariant(s: State) {
    && QueueOk(s.ring, s.hist)
    && SleepIn(s.procs, s.ring)
    && NoWrites(s.procs)
    && UsersOk(s.procs, s.dev.files)
    && DeviceOk(s.dev)
    && (Sound(s) || (Leaked(s) && Wf(s.ring)))
  }

  lemma MotorStart(s: State)
    requires Init(s)
    ensures MotorInvariant(s) && Sound(s) && SleepOut(s.procs, s.ring)
  {
    assert Readers(map[]) == {} && Writers(map[]) == {};
    assert Pending(Settled(s.ring)) == [];
  }

  lemma SoundIsNotLeaked(s: State)
    requires Sound(s)
    ensures !Leaked(s)
  {
  }

  // ----- what one step does to the processes and the semaphore

  lemma CopyMoves(s: State, p: Pid)
    requires p in s.procs && s.procs[p].pc == In(WriteCopy) && Wf(s.ring)
    ensures var t := IoctlCopy(s, p);
      && OthersStand(s.procs, t.procs, p) && t.sem == s.sem && t.dev == s.dev
      && t.hist.delivered == s.hist.delivered
      && if WriteCount(s.ring, CMD_STR_LEN) < CMD_STR_LEN
         then t.procs[p] == RESTING && t.ring == s.ring && t.hist == s.hist
         else t.procs[p] == Proc(In(WriteWrap), s.procs[p].op, s.procs[p].woken)
  {
  }

  /** A refused ioctl returns, and the semaphore stays down with nobody inside. */
  lemma RefusalLeaks(s: State, step: Step)
    requires Sound(s) && Refuses(s, step)
    ensures var t := MotorDo(s, step);
      Leaked(t) && t == State(s.procs[step.p := RESTING], Some(step.p), s.ring, s.dev, s.hist)
  {
    assert IoctlCopy(s, step.p) == s.(procs := s.procs[step.p := RESTING]);
  }

  lemma CopyKeepsLock(s: State, step: Step)
    requires LockOk(s.procs, s.sem) && AtCopy(s, step) && Wf(s.ring) && !Refuses(s, step)
    ensures var t := MotorDo(s, step);
      LockOk(t.procs, t.sem) && Holder(t.procs, t.sem) == In(WriteWrap)
  {
    hide WriteCount, Wf;
    CopyMoves(s, step.p);
    var t := MotorDo(s, step);
    LockStep(s.procs, t.procs, s.sem, t.sem, step.p);
  }

  lemma CopyAdvances(s: State, p: Pid)
    requires p in s.procs && s.procs[p].pc == In(WriteCopy) && Wf(s.ring) && QueueOk(s.ring, s.hist)
    requires WriteCount(s.ring, CMD_STR_LEN) == CMD_STR_LEN
    ensures var t := IoctlCopy(s, p);
      && RingOk(t.ring, In(WriteWrap)) && QueueOk(t.ring, t.hist)
      && Settled(t.ring) == Produced(s.ring, Queued(s.ring, CommandOf(s.procs[p].op)))
  {
    hide Pending, WriteCount, Overwrite;
    var r, f := s.ring, Queued(s.ring, CommandOf(s.procs[p].op));
    WriteAppends(r, f);
    Appends(r, s.hist, f);
  }

  lemma HolderAtCopy(s: State, step: Step)
    requires Sound(s) && AtCopy(s, step)
    ensures Holder(s.procs, s.sem) == In(WriteCopy) && s.sem == Some(step.p)
    ensures Wf(s.ring) && Space(s.ring) != 0
  {
  }

  /** Whatever is not a refusal keeps the semaphore and the ring in order. */
  lemma StepStaysSound(s: State, step: Step)
    requires Sound(s) && QueueOk(s.ring, s.hist) && CanMove(s, step) && !Refuses(s, step)
    ensures Sound(MotorDo(s, step)) && QueueOk(MotorDo(s, step).ring, MotorDo(s, step).hist)
  {
    hide Pending, WriteCount, Do, CanMove, RingOk, QueueOk, WriteGuard, LockOk, Wf, IoctlCopy;
    if AtCopy(s, step) {
      HolderAtCopy(s, step);
      CopyKeepsLock(s, step);
      CopyAdvancesAt(s, step);
    } else {
      StepKeepsLock(s, step);
      RingStep(s, step);
      GuardStep(s, step);
    }
  }

  lemma CopyAdvancesAt(s: State, step: Step)
    requires AtCopy(s, step) && Wf(s.ring) && QueueOk(s.ring, s.hist) && !Refuses(s, step)
    ensures var t := MotorDo(s, step);
      RingOk(t.ring, In(WriteWrap)) && QueueOk(t.ring, t.hist) && WriteGuard(t.ring, In(WriteWrap))
  {
    CopyAdvances(s, step.p);
  }

  /** Once the semaphore is lost no step changes it, the ring, the device or the history, and
      no step enters. */
  lemma LeakedStep(s: State, step: Step)
    requires Leaked(s) && CanMove(s, step)
    ensures var t := MotorDo(s, step);
      Leaked(t) && t.sem == s.sem && t.ring == s.ring && t.dev == s.dev && t.hist == s.hist
  {
    StepKeepsOthers(s, step);
    StepMovesLock(s, step);
    QuietStep(s, step);
  }

  // ----- sleeping and waking

  lemma MotorMovesIn(s: State, step: Step)
    requires CanMove(s, step) && (s.procs[step.p].pc.In? ==> RingOk(s.ring, s.procs[step.p].pc))
    ensures var t := MotorDo(s, step);
      OthersStand(s.procs, t.procs, step.p) && MoveIn(s.procs, t.procs, step.p, s.ring, t.ring)
  {
    hide WriteCount, CanMove, Do;
    if AtCopy(s, step) {
      CopyMoves(s, step.p);
    } else {
      StepKeepsOthers(s, step);
      StepMovesIn(s, step);
    }
  }

  lemma MotorMovesOut(s: State, step: Step)
    requires CanMove(s, step) && (s.procs[step.p].pc.In? ==> RingOk(s.ring, s.procs[step.p].pc))
    requires AtCopy(s, step) ==> Space(s.ring) != 0
    requires !Resets(s, step)
    ensures var t := MotorDo(s, step);
      OthersStand(s.procs, t.procs, step.p) && MoveOut(s.procs, t.procs, step.p, s.ring, t.ring)
  {
    hide WriteCount, CanMove, Do;
    if AtCopy(s, step) {
      CopyMoves(s, step.p);
    } else {
      StepKeepsOthers(s, step);
      StepMovesOut(s, step);
    }
  }

  /** The ring as the process that is about to step finds it. */
  lemma InsideFindsRing(s: State, step: Step)
    requires Sound(s) || Leaked(s)
    requires CanMove(s, step)
    ensures s.procs[step.p].pc.In? ==> RingOk(s.ring, s.procs[step.p].pc)
    ensures AtCopy(s, step) ==> Space(s.ring) != 0 && Wf(s.ring)
  {
  }

  lemma MoverOp(s: State, step: Step)
    requires CanMove(s, step)
    ensures var op := MotorDo(s, step).procs[step.p].op;
      op == s.procs[step.p].op || op.NoOp? || (step.Begin? && op == step.op)
  {
    hide WriteCount;
  }

  lemma StepMakesNoWrite(s: State, step: Step)
    requires NoWrites(s.procs) && MotorEnabled(s, step)
    requires OthersStand(s.procs, MotorDo(s, step).procs, step.p)
    ensures NoWrites(MotorDo(s, step).procs)
  {
    hide MotorDo, CanMove, MayBegin;
    MoverOp(s, step);
  }

  /** A process that is about to copy is making an ioctl. */
  lemma CopyIsIoctl(s: State, step: Step)
    requires UsersOk(s.procs, s.dev.files) && NoWrites(s.procs) && AtCopy(s, step)
    ensures s.procs[step.p].op.Ioctl? && s.procs[step.p].op.file in s.dev.files
  {
    assert Fits(s.procs[step.p].pc, s.procs[step.p].op, s.dev.files);
  }

  /** The step of a copy keeps the file open and in the call's hands. */
  lemma CopyKeepsUsers(s: State, p: Pid)
    requires p in s.procs && s.procs[p].pc == In(WriteCopy) && Wf(s.ring) && UsersOk(s.procs, s.dev.files)
    ensures UsersOk(IoctlCopy(s, p).procs, s.dev.files)
  {
    hide Wf, WriteCount, IoctlCopy;
    CopyMoves(s, p);
    var t := IoctlCopy(s, p);
    assert Fits(s.procs[p].pc, s.procs[p].op, s.dev.files);
    UsersKept(s.procs, t.procs, p, s.dev.files, s.dev.files, t.procs[p].op);
  }

  lemma StepKeepsFiles(s: State, step: Step)
    requires MotorEnabled(s, step) && UsersOk(s.procs, s.dev.files) && DeviceOk(s.dev)
    requires AtCopy(s, step) ==> Wf(s.ring)
    ensures var t := MotorDo(s, step); UsersOk(t.procs, t.dev.files) && DeviceOk(t.dev)
  {
    hide UsersOk, DeviceOk, CanMove, MayBegin, Do, IoctlCopy, Wf, WriteCount;
    if AtCopy(s, step) {
      CopyMoves(s, step.p);
      CopyKeepsUsers(s, step.p);
    } else {
      UsersStep(s, step);
      DeviceStep(s, step);
    }
  }

  lemma MotorStep(s: State, step: Step)
    requires MotorInvariant(s) && MotorEnabled(s, step)
    ensures MotorInvariant(MotorDo(s, step))
    ensures Leaked(MotorDo(s, step)) <==> Leaked(s) || Refuses(s, step)
  {
    hide Leaked, Sound, QueueOk, SleepIn, NoWrites, UsersOk, DeviceOk, MotorDo, Wf;
    hide WriteCount, CanMove, MayBegin, RingOk;
    var t := MotorDo(s, step);
    InsideFindsRing(s, step);
    MotorMovesIn(s, step);
    SleepInKept(s.procs, t.procs, step.p, s.ring, t.ring);
    StepMakesNoWrite(s, step);
    StepKeepsFiles(s, step);
    if !Sound(s) {
      LeakedStep(s, step);
      return;
    }
    SoundIsNotLeaked(s);
    if Refuses(s, step) {
      RefusalLeaks(s, step);
    } else {
      StepStaysSound(s, step);
      SoundIsNotLeaked(t);
    }
  }

  lemma {:induction false} MotorRun(s: State, steps: seq<Step>, t: State)
    requires MotorInvariant(s) && MotorLeads(s, steps, t)
    ensures MotorInvariant(t)
    decreases |steps|
  {
    if steps == [] {
    } else {
      MotorStep(s, steps[0]);
      MotorRun(MotorDo(s, steps[0]), steps[1..], t);
    }
  }

  /** After its `up` on a full ring an ioctl returns if it must not wait, else it goes on to wait,
      and falls asleep only if the ring is still full. */
  lemma IoctlOnFull(s: State, p: Pid, ch: Choice)
    requires p in s.procs && s.procs[p].op.Ioctl?
    ensures var x := s.procs[p]; var t := MotorDo(s, Run(p, ch));
      && (x.pc == In(Enter(WriteTest)) ==> t == s.(procs := s.procs[p :=
            x.(pc := In(if Space(s.ring) == 0 then Up(WriteNap) else WriteCopy))]))
      && (x.pc == Past(WriteNap) ==> t == s.(procs := s.procs[p :=
            if x.op.nonblock then RESTING else Proc(Out(WriteCheck), x.op, false)]))
      && (x.pc == Out(WriteCheck) ==> t == s.(procs := s.procs[p :=
            x.(pc := if Space(s.ring) == 0 then Out(WriteAsleep) else Down(WriteTest))]))
      && (x.pc == Out(WriteAsleep) ==> t == s.(procs := s.procs[p := x.(pc := Down(WriteTest))]))
  {
  }

  // ----- theorems over every run

  /** Some ioctl of the run was refused. */
  ghost predicate SomeRefused(s: State, steps: seq<Step>)
    decreases |steps|
  {
    steps != [] && steps[0].p in s.procs && (Refuses(s, steps[0]) || SomeRefused(MotorDo(s, steps[0]), steps[1..]))
  }

  lemma {:induction false} RunLeaks(s: State, steps: seq<Step>, t: State)
    requires MotorInvariant(s) && MotorLeads(s, steps, t)
    ensures Leaked(t) <==> Leaked(s) || SomeRefused(s, steps)
    decreases |steps|
  {
    hide MotorInvariant, Leaked, MotorDo, Refuses, CanMove, MayBegin;
    if steps == [] {
    } else {
      MotorStep(s, steps[0]);
      RunLeaks(MotorDo(s, steps[0]), steps[1..], t);
    }
  }

  /** In every reachable state the semaphore is in order, down exactly while its holder is
      inside, until an ioctl is refused; from then on it is down and nobody is inside. */
  lemma LostExactlyByRefusal(s: State, steps: seq<Step>, t: State)
    requires Init(s) && MotorLeads(s, steps, t)
    ensures if SomeRefused(s, steps) then Leaked(t) else LockOk(t.procs, t.sem)
  {
    hide MotorLeads, SomeRefused;
    MotorStart(s);
    SoundIsNotLeaked(s);
    MotorRun(s, steps, t);
    RunLeaks(s, steps, t);
  }

  /** Waiting for the semaphore where no signal ends the wait. */
  predicate Stuck(pc: PC) {
    pc == Down(CloseBody) || pc == Down(PollBody)
  }

  lemma StuckStays(s: State, step: Step)
    requires Leaked(s) && CanMove(s, step)
    ensures forall p :: p in s.procs && Stuck(s.procs[p].pc) ==>
      p in MotorDo(s, step).procs && Stuck(MotorDo(s, step).procs[p].pc)
  {
    StepKeepsOthers(s, step);
  }

  lemma {:induction false} LeakIsForever(s: State, steps: seq<Step>, t: State)
    requires Leaked(s) && MotorLeads(s, steps, t)
    ensures Leaked(t) && t.sem == s.sem && t.ring == s.ring && t.dev == s.dev && t.hist == s.hist
    ensures forall p :: p in s.procs && Stuck(s.procs[p].pc) ==> p in t.procs && Stuck(t.procs[p].pc)
    decreases |steps|
  {
    hide Leaked, MotorDo, CanMove, MayBegin;
    if steps == [] {
    } else {
      LeakedStep(s, steps[0]);
      StuckStays(s, steps[0]);
      LeakIsForever(MotorDo(s, steps[0]), steps[1..], t);
    }
  }

  /** A refused ioctl of any run ends the tunnel for every process: in all that can follow the
      semaphore stays with the process that returned, nobody is ever inside again, ring, open
      files, counts, buffer and history stay as they were, and a release or a poll that waits
      for the semaphore waits for good. */
  lemma RefusalEndsTunnel(s: State, before: seq<Step>, t: State, step: Step, after: seq<Step>, u: State)
    requires Init(s) && MotorLeads(s, before, t) && Refuses(t, step)
    requires MotorEnabled(t, step) && MotorLeads(MotorDo(t, step), after, u)
    ensures u.sem == Some(step.p) && forall p :: p in u.procs ==> !u.procs[p].pc.In?
    ensures u.ring == t.ring && u.dev == t.dev && u.hist == t.hist
    ensures forall p :: p in t.procs && Stuck(t.procs[p].pc) ==> p in u.procs && Stuck(u.procs[p].pc)
  {
    hide MotorLeads, CanMove, MayBegin;
    MotorStart(s);
    MotorRun(s, before, t);
    RefusalFound(t, step);
    RefusalLeaks(t, step);
    LeakIsForever(MotorDo(t, step), after, u);
    forall p | p in t.procs && Stuck(t.procs[p].pc) ensures Stuck(MotorDo(t, step).procs[p].pc) {
    }
  }

  lemma RefusalFound(s: State, step: Step)
    requires MotorInvariant(s) && Refuses(s, step)
    ensures Sound(s)
  {
  }

  function MotorFilesOf(files: Files, s: State, steps: seq<Step>): Files
    decreases |steps|
  {
    if steps == [] || steps[0].p !in s.procs then files
    else MotorFilesOf(Tally(files, s, steps[0]), MotorDo(s, steps[0]), steps[1..])
  }

  lemma MotorStepTallies(s: State, step: Step)
    requires MotorInvariant(s) && MotorEnabled(s, step)
    ensures MotorDo(s, step).dev.files == Tally(s.dev.files, s, step)
  {
    hide Sound, Leaked, QueueOk, SleepIn, DeviceOk, Do, CanMove, MayBegin;
    if AtCopy(s, step) {
      assert MotorDo(s, step).dev == s.dev;
    } else {
      StepTallies(s, step);
    }
  }

  lemma {:induction false} MotorRunTallies(s: State, steps: seq<Step>, t: State)
    requires MotorInvariant(s) && MotorLeads(s, steps, t)
    ensures t.dev.files == MotorFilesOf(s.dev.files, s, steps)
    decreases |steps|
  {
    hide MotorInvariant, Tally, MotorDo, Allowed;
    if steps == [] {
    } else {
      MotorStep(s, steps[0]);
      MotorStepTallies(s, steps[0]);
      MotorRunTallies(MotorDo(s, steps[0]), steps[1..], t);
    }
  }

  /** The open files are those that the run's calls opened and did not close, in the modes asked
      for, and the counts are theirs. */
  lemma MotorCountsOfCalls(s: State, steps: seq<Step>, t: State)
    requires Init(s) && MotorLeads(s, steps, t)
    ensures var files := MotorFilesOf(map[], s, steps);
      && t.dev.files == files
      && t.dev.nreaders == |Readers(files)| && t.dev.nwriters == |Writers(files)|
      && forall f ::
           && (f in Readers(files) <==> f in files && files[f].read)
           && (f in Writers(files) <==> f in files && files[f].write)
  {
    hide MotorLeads, MotorFilesOf, Sound, Leaked, QueueOk, SleepIn, Wf;
    MotorStart(s);
    MotorRun(s, steps, t);
    MotorRunTallies(s, steps, t);
  }

  /** The buffer is there under every read and under every ioctl through a file that is readable
      or writable; a file that is neither counts for nothing and does not keep it. */
  lemma MotorBufferLifetime(s: State, steps: seq<Step>, t: State, p: Pid)
    requires Init(s) && MotorLeads(s, steps, t) && p in t.procs
    ensures t.dev.nreaders == |Readers(t.dev.files)| && t.dev.nwriters == |Writers(t.dev.files)|
    ensures var op := t.procs[p].op;
      && (op.Read? || op.Ioctl? ==> op.file in t.dev.files)
      && (op.Read? ==> t.dev.buffer)
      && (op.Ioctl? && (t.dev.files[op.file].read || t.dev.files[op.file].write) ==> t.dev.buffer)
    ensures t.dev.files == map[] ==> !t.dev.buffer
  {
    hide MotorLeads, Sound, Leaked, QueueOk, SleepIn, Wf;
    MotorStart(s);
    MotorRun(s, steps, t);
    var op := t.procs[p].op;
    assert Fits(t.procs[p].pc, op, t.dev.files);
    assert op.Read? || op.Ioctl? ==>
      (op.file in Readers(t.dev.files) <==> t.dev.files[op.file].read) &&
      (op.file in Writers(t.dev.files) <==> t.dev.files[op.file].write);
  }

  /** Whoever is asleep for bytes faces an empty ring or an ioctl on its way to the wake-up,
      also after the semaphore is lost. */
  lemma MotorReadersAreWoken(s: State, steps: seq<Step>, t: State, p: Pid)
    requires Init(s) && MotorLeads(s, steps, t) && p in t.procs && WaitsIn(t.procs[p])
    ensures t.ring.rp == t.ring.wp || SomeWriter(t.procs)
  {
    hide MotorLeads, Sound, Leaked, QueueOk, Wf, UsersOk, DeviceOk;
    MotorStart(s);
    MotorRun(s, steps, t);
  }

  /** One step keeps the guarantee for ioctls asleep for space exactly when it is not an open
      that resets the ring under one of them. */
  lemma MotorStepSleepOut(s: State, step: Step)
    requires MotorInvariant(s) && MotorEnabled(s, step) && SleepOut(s.procs, s.ring)
    ensures SleepOut(MotorDo(s, step).procs, MotorDo(s, step).ring) <==>
              (Resets(s, step) ==> |s.ring.cells| == 1 || NoneStranded(s.procs))
  {
    hide Sound, Leaked, SleepIn, Wf, Do, RingOk, CanMove, MayBegin;
    if Resets(s, step) {
      ResetStrands(s, step);
    } else {
      InsideFindsRing(s, step);
      MotorMovesOut(s, step);
      SleepOutKept(s.procs, MotorDo(s, step).procs, step.p, s.ring, MotorDo(s, step).ring);
    }
  }

  /** No open of the run resets the ring under an ioctl or a poll that waits for space. */
  ghost predicate MotorOrderly(s: State, steps: seq<Step>)
    decreases |steps|
  {
    steps == [] ||
    (&& steps[0].p in s.procs
     && (Resets(s, steps[0]) ==> |s.ring.cells| == 1 || NoneStranded(s.procs))
     && MotorOrderly(MotorDo(s, steps[0]), steps[1..]))
  }

  ghost predicate MotorAlwaysSleepOut(s: State, steps: seq<Step>)
    decreases |steps|
  {
    && SleepOut(s.procs, s.ring)
    && (steps == [] || (steps[0].p in s.procs && MotorAlwaysSleepOut(MotorDo(s, steps[0]), steps[1..])))
  }

  lemma {:induction false} MotorSleepOutIff(s: State, steps: seq<Step>, t: State)
    requires MotorInvariant(s) && SleepOut(s.procs, s.ring) && MotorLeads(s, steps, t)
    ensures MotorAlwaysSleepOut(s, steps) <==> MotorOrderly(s, steps)
    decreases |steps|
  {
    hide MotorInvariant, MotorDo, CanMove, MayBegin, SleepOut;
    if steps == [] {
    } else {
      var u := MotorDo(s, steps[0]);
      MotorStep(s, steps[0]);
      MotorStepSleepOut(s, steps[0]);
      if SleepOut(u.procs, u.ring) {
        MotorSleepOutIff(u, steps[1..], t);
      }
    }
  }

  /** Whoever waits for space faces a full ring or a reader on its way to the wake-up, in every
      state of a run, if and only if no open of the run strands it. */
  lemma MotorOrderlyIsExact(s: State, steps: seq<Step>, t: State)
    requires Init(s) && MotorLeads(s, steps, t)
    ensures MotorAlwaysSleepOut(s, steps) <==> MotorOrderly(s, steps)
  {
    hide MotorLeads, MotorInvariant, Sound;
    MotorStart(s);
    MotorSleepOutIff(s, steps, t);
  }
}
