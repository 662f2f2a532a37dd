/** The guarantees of the sensor tunnel over whole runs, for any number of processes. */
module SensorRuns {
  import opened Bytes
  import opened Rings
  import opened SensorProtocol
  import opened SensorProofs
  import opened SensorFiles
  import opened SensorSleep

  ghost predicate Invariant(s: State) {
    && LockOk(s.procs, s.sem)
    && RingOk(s.ring, Holder(s.procs, s.sem))
    && WriteGuard(s.ring, Holder(s.procs, s.sem))
    && QueueOk(s.ring, s.hist)
    && UsersOk(s.procs, s.dev.files)
    && DeviceOk(s.dev)
    && SleepIn(s.procs, s.ring)
  }

  lemma InitInvariant(s: State)
    requires Init(s)
    ensures Invariant(s) && SleepOut(s.procs, s.ring)
  {
    assert Readers(map[]) == {} && Writers(map[]) == {};
    assert Pending(Settled(s.ring)) == [];
  }

  lemma StepInvariant(s: State, step: Step)
    requires Invariant(s) && Enabled(s, step)
    ensures Invariant(Do(s, step))
  {
    var t := Do(s, step);
    StepKeepsOthers(s, step);
    StepMovesLock(s, step);
    StepKeepsLock(s, step);
    RingStep(s, step);
    GuardStep(s, step);
    UsersStep(s, step);
    DeviceStep(s, step);
    StepMovesIn(s, step);
    SleepInKept(s.procs, t.procs, step.p, s.ring, t.ring);
  }

  /** Every state that any run reaches. */
  lemma {:induction false} RunInvariant(s: State, steps: seq<Step>, t: State)
    requires Invariant(s) && Leads(s, steps, t)
    ensures Invariant(t)
    decreases |steps|
  {
    if steps == [] {
    } else {
      StepInvariant(s, steps[0]);
      RunInvariant(Do(s, steps[0]), steps[1..], t);
    }
  }

  // ----- mutual exclusion and lifetime

  /** At most one process is inside the critical section, and none that sleeps, waits for the
      semaphore or has returned still holds it. */
  lemma MutualExclusion(s: State, steps: seq<Step>, t: State, p: Pid, q: Pid)
    requires Init(s) && Leads(s, steps, t) && p in t.procs && q in t.procs
    ensures t.procs[p].pc.In? && t.procs[q].pc.In? ==> p == q
    ensures t.sem == Some(p) <==> t.procs[p].pc.In?
    ensures Asleep(t.procs[p].pc) || t.procs[p] == RESTING ==> t.sem != Some(p)
  {
    InitInvariant(s);
    RunInvariant(s, steps, t);
  }

  /** The files that the calls of a run leave open, each in the mode that its open asked for. */
  function FilesOf(files: Files, s: State, steps: seq<Step>): Files
    decreases |steps|
  {
    if steps == [] || steps[0].p !in s.procs then files
    else FilesOf(Tally(files, s, steps[0]), Do(s, steps[0]), steps[1..])
  }

  lemma {:induction false} RunTallies(s: State, steps: seq<Step>, t: State)
    requires Invariant(s) && Leads(s, steps, t)
    ensures t.dev.files == FilesOf(s.dev.files, s, steps)
    decreases |steps|
  {
    hide Tally;
    if steps == [] {
    } else {
      StepInvariant(s, steps[0]);
      StepTallies(s, steps[0]);
      RunTallies(Do(s, steps[0]), steps[1..], t);
    }
  }

  /** The open files are those that the run's calls opened and did not close, in the modes asked
      for, and the counts are theirs. */
  lemma CountsOfCalls(s: State, steps: seq<Step>, t: State)
    requires Init(s) && Leads(s, steps, t)
    ensures var files := FilesOf(map[], s, steps);
      && t.dev.files == files
      && t.dev.nreaders == |Readers(files)| && t.dev.nwriters == |Writers(files)|
      && forall f ::
           && (f in Readers(files) <==> f in files && files[f].read)
           && (f in Writers(files) <==> f in files && files[f].write)
  {
    hide Leads, FilesOf;
    InitInvariant(s);
    RunInvariant(s, steps, t);
    RunTallies(s, steps, t);
  }

  /** The buffer outlives every call that may touch it, and goes with the last file. */
  lemma BufferLifetime(s: State, steps: seq<Step>, t: State, p: Pid)
    requires Init(s) && Leads(s, steps, t) && p in t.procs
    ensures t.dev.nreaders == |Readers(t.dev.files)| && t.dev.nwriters == |Writers(t.dev.files)|
    ensures (exists f :: f in t.dev.files && (t.dev.files[f].read || t.dev.files[f].write)) ==> t.dev.buffer
    ensures t.dev.files == map[] ==> !t.dev.buffer
    ensures t.procs[p].op.Read? || t.procs[p].op.Write? ==> t.dev.buffer
    ensures t.procs[p].op.Read? ==> t.procs[p].op.file in t.dev.files && t.dev.files[t.procs[p].op.file].read
    ensures t.procs[p].op.Write? ==> t.procs[p].op.file in t.dev.files && t.dev.files[t.procs[p].op.file].write
    ensures Nonblock(t.procs[p].op) ==> !Asleep(t.procs[p].pc)
  {
    InitInvariant(s);
    RunInvariant(s, steps, t);
    var d := t.dev;
    if f :| f in d.files && (d.files[f].read || d.files[f].write) {
      assert f in Readers(d.files) || f in Writers(d.files);
    }
  }

  // ----- first in, first out

  lemma QueueLaw(s: State)
    requires Invariant(s)
    ensures Wf(Settled(s.ring)) && s.hist.accepted == s.hist.delivered + Pending(Settled(s.ring))
  {
  }

  /** The semaphore hands the ring over in order: whatever came in since the last open is what
      went out since then, followed by what the ring holds. */
  lemma FirstInFirstOut(s: State, steps: seq<Step>, t: State)
    requires Init(s) && Leads(s, steps, t)
    ensures Wf(Settled(t.ring)) && t.hist.accepted == t.hist.delivered + Pending(Settled(t.ring))
  {
    InitInvariant(s);
    RunInvariant(s, steps, t);
  }

  /** A read that gets as far as its copy hands out the oldest bytes, at least one if it asked
      for any, and fewer than it asked for only up to the end of the queue or of the block; a
      faulting copy hands out none. */
  lemma ReadMovesOldest(s: State, steps: seq<Step>, t: State, p: Pid, ch: Choice)
    requires Init(s) && Leads(s, steps, t) && p in t.procs && t.procs[p].pc == In(ReadCopy)
    ensures Wf(t.ring)
    ensures var u := Do(t, Run(p, ch)); var q := Pending(t.ring);
      && Enabled(t, Run(p, ch)) && u.hist.accepted == t.hist.accepted
      && exists k: nat ::
           && k <= |q| && u.hist.delivered == t.hist.delivered + q[..k]
           && k <= CountOf(t.procs[p].op)
           && (!ch.faults && k < CountOf(t.procs[p].op) ==>
                 t.ring.rp + k == t.ring.wp || t.ring.rp + k == |t.ring.cells|)
           && (ch.faults ==> k == 0) && (!ch.faults && CountOf(t.procs[p].op) > 0 ==> k > 0)
  {
    hide Leads, UsersOk, DeviceOk, SleepIn, WriteGuard, QueueOk;
    InitInvariant(s);
    RunInvariant(s, steps, t);
    CopyHandsOut(t, p, ch);
  }

  lemma CopyHandsOut(s: State, p: Pid, ch: Choice)
    requires p in s.procs && s.procs[p].pc == In(ReadCopy) && RingOk(s.ring, In(ReadCopy))
    ensures Wf(s.ring)
    ensures var t := Do(s, Run(p, ch)); var q := Pending(s.ring);
      && t.hist.accepted == s.hist.accepted
      && exists k: nat ::
           && k <= |q| && t.hist.delivered == s.hist.delivered + q[..k]
           && k <= CountOf(s.procs[p].op)
           && (!ch.faults && k < CountOf(s.procs[p].op) ==>
                 s.ring.rp + k == s.ring.wp || s.ring.rp + k == |s.ring.cells|)
           && (ch.faults ==> k == 0) && (!ch.faults && CountOf(s.procs[p].op) > 0 ==> k > 0)
  {
    var r, count := s.ring, CountOf(s.procs[p].op);
    ReadTakesPrefix(r, count);
    ReadStopsAtEnd(r, count);
    var k := if ch.faults then 0 else ReadCount(r, count);
    assert Pending(r)[..k] == r.cells[r.rp..r.rp + k];
    assert s.hist.delivered + [] == s.hist.delivered;
  }

  /** A write that gets as far as its copy takes a prefix of the caller's bytes, at least one if
      there is any, and less than all only up to a full ring or the end of the block; a faulting
      copy leaves the queue as it was. */
  lemma WriteMovesPrefix(s: State, steps: seq<Step>, t: State, p: Pid, ch: Choice)
    requires Init(s) && Leads(s, steps, t) && p in t.procs && t.procs[p].pc == In(WriteCopy)
    ensures var u := Do(t, Run(p, ch)); var src := DataOf(t.procs[p].op);
      && Enabled(t, Run(p, ch)) && u.hist.delivered == t.hist.delivered
      && exists k: nat ::
           && k <= |src| && u.hist.accepted == t.hist.accepted + src[..k]
           && (ch.faults ==> k == 0) && (!ch.faults && src != [] ==> k > 0)
           && (!ch.faults && k < |src| ==> k == Space(t.ring) || t.ring.wp + k == |t.ring.cells|)
  {
    hide Leads, UsersOk, DeviceOk, SleepIn;
    InitInvariant(s);
    RunInvariant(s, steps, t);
    var r, src := t.ring, DataOf(t.procs[p].op);
    SpaceIsRoom(r);
    WriteCountFacts(r, |src|);
    var k := if ch.faults then 0 else WriteCount(r, |src|);
    assert t.hist.accepted + src[..0] == t.hist.accepted;
    assert Do(t, Run(p, ch)).hist.accepted == t.hist.accepted + src[..k];
  }

  ghost predicate NoReset(s: State, steps: seq<Step>)
    decreases |steps|
  {
    steps == [] || (steps[0].p in s.procs && !Resets(s, steps[0]) && NoReset(Do(s, steps[0]), steps[1..]))
  }

  /** Only an open ever drops history. */
  lemma StepKeepsHistory(s: State, step: Step)
    requires Enabled(s, step) && !Resets(s, step)
    ensures s.hist.accepted <= Do(s, step).hist.accepted
    ensures s.hist.delivered <= Do(s, step).hist.delivered
  {
  }

  lemma {:induction false} RunKeepsHistory(s: State, steps: seq<Step>, t: State)
    requires Leads(s, steps, t) && NoReset(s, steps)
    ensures s.hist.accepted <= t.hist.accepted && s.hist.delivered <= t.hist.delivered
    decreases |steps|
  {
    if steps == [] {
    } else {
      StepKeepsHistory(s, steps[0]);
      RunKeepsHistory(Do(s, steps[0]), steps[1..], t);
    }
  }

  /** Conservation between opens: bytes queued at the start plus bytes accepted are, in order,
      the bytes delivered plus the bytes queued at the end. */
  lemma ConservedBetweenOpens(s: State, before: seq<Step>, t: State, steps: seq<Step>, u: State)
    requires Init(s) && Leads(s, before, t) && Leads(t, steps, u) && NoReset(t, steps)
    ensures t.hist.accepted <= u.hist.accepted && t.hist.delivered <= u.hist.delivered
    ensures Wf(Settled(t.ring)) && Wf(Settled(u.ring))
    ensures Pending(Settled(t.ring)) + u.hist.accepted[|t.hist.accepted|..]
         == u.hist.delivered[|t.hist.delivered|..] + Pending(Settled(u.ring))
  {
    InitInvariant(s);
    hide Init, Leads, NoReset, Invariant, Pending, Settled, Wf;
    RunInvariant(s, before, t);
    RunInvariant(t, steps, u);
    QueueLaw(t);
    QueueLaw(u);
    RunKeepsHistory(t, steps, u);
    Difference(t.hist, Pending(Settled(t.ring)), u.hist, Pending(Settled(u.ring)));
  }

  lemma Difference(h: History, p: seq<byte>, h': History, q: seq<byte>)
    requires h.accepted == h.delivered + p && h'.accepted == h'.delivered + q
    requires h.accepted <= h'.accepted && h.delivered <= h'.delivered
    ensures p + h'.accepted[|h.accepted|..] == h'.delivered[|h.delivered|..] + q
  {
    Cancel(h.delivered, p, h'.accepted[|h.accepted|..], h'.delivered[|h.delivered|..], q);
  }

  lemma Cancel(d: seq<byte>, p: seq<byte>, a: seq<byte>, e: seq<byte>, q: seq<byte>)
    requires (d + p) + a == (d + e) + q
    ensures p + a == e + q
  {
    assert ((d + p) + a)[|d|..] == p + a;
    assert ((d + e) + q)[|d|..] == e + q;
  }

  // ----- no lost wake-up

  /** Whoever is asleep for bytes faces an empty ring or a writer on its way to the wake-up. */
  lemma ReadersAreWoken(s: State, steps: seq<Step>, t: State, p: Pid)
    requires Init(s) && Leads(s, steps, t) && p in t.procs && WaitsIn(t.procs[p])
    ensures t.ring.rp == t.ring.wp || SomeWriter(t.procs)
  {
    InitInvariant(s);
    RunInvariant(s, steps, t);
  }

  lemma StepSleepOut(s: State, step: Step)
    requires Invariant(s) && Enabled(s, step) && SleepOut(s.procs, s.ring)
    ensures SleepOut(Do(s, step).procs, Do(s, step).ring) <==>
              (Resets(s, step) ==> |s.ring.cells| == 1 || NoneStranded(s.procs))
  {
    if Resets(s, step) {
      ResetStrands(s, step);
    } else {
      StepKeepsOthers(s, step);
      StepMovesOut(s, step);
      SleepOutKept(s.procs, Do(s, step).procs, step.p, s.ring, Do(s, step).ring);
    }
  }

  /** No open of the run resets the ring under a process that waits for space. */
  ghost predicate Orderly(s: State, steps: seq<Step>)
    decreases |steps|
  {
    steps == [] ||
    (&& steps[0].p in s.procs
     && (Resets(s, steps[0]) ==> |s.ring.cells| == 1 || NoneStranded(s.procs))
     && Orderly(Do(s, steps[0]), steps[1..]))
  }

  lemma {:induction false} RunSleepOut(s: State, steps: seq<Step>, t: State)
    requires Invariant(s) && SleepOut(s.procs, s.ring) && Leads(s, steps, t) && Orderly(s, steps)
    ensures SleepOut(t.procs, t.ring)
    decreases |steps|
  {
    if steps == [] {
    } else {
      StepInvariant(s, steps[0]);
      StepSleepOut(s, steps[0]);
      RunSleepOut(Do(s, steps[0]), steps[1..], t);
    }
  }

  /** The guarantee for those asleep for space, in every state of the run. */
  ghost predicate AlwaysSleepOut(s: State, steps: seq<Step>)
    decreases |steps|
  {
    && SleepOut(s.procs, s.ring)
    && (steps == [] || (steps[0].p in s.procs && AlwaysSleepOut(Do(s, steps[0]), steps[1..])))
  }

  lemma {:induction false} RunSleepOutIff(s: State, steps: seq<Step>, t: State)
    requires Invariant(s) && SleepOut(s.procs, s.ring) && Leads(s, steps, t)
    ensures AlwaysSleepOut(s, steps) <==> Orderly(s, steps)
    decreases |steps|
  {
    if steps == [] {
    } else {
      var u := Do(s, steps[0]);
      StepInvariant(s, steps[0]);
      StepSleepOut(s, steps[0]);
      if SleepOut(u.procs, u.ring) {
        RunSleepOutIff(u, steps[1..], t);
      }
    }
  }

  /** A run keeps its promise to those asleep for space in every state it passes through if and
      only if none of its opens resets the ring under one of them. */
  lemma OrderlyIsExact(s: State, steps: seq<Step>, t: State)
    requires Init(s) && Leads(s, steps, t)
    ensures AlwaysSleepOut(s, steps) <==> Orderly(s, steps)
  {
    InitInvariant(s);
    RunSleepOutIff(s, steps, t);
  }

  /** Whoever is asleep for space faces a full ring or a reader on its way to the wake-up. */
  lemma WritersAreWoken(s: State, steps: seq<Step>, t: State, p: Pid)
    requires Init(s) && Leads(s, steps, t) && Orderly(s, steps)
    requires p in t.procs && WaitsOut(t.procs[p])
    ensures Space(t.ring) == 0 || SomeReader(t.procs)
  {
    InitInvariant(s);
    RunSleepOut(s, steps, t);
  }

  /** With two cells or more, readers and writers are never all asleep with no wake on its way. */
  lemma NeverBothAsleep(s: State, steps: seq<Step>, t: State, p: Pid, q: Pid)
    requires Init(s) && Leads(s, steps, t) && Orderly(s, steps) && |t.ring.cells| >= 2
    requires p in t.procs && WaitsIn(t.procs[p]) && q in t.procs && WaitsOut(t.procs[q])
    ensures SomeWriter(t.procs) || SomeReader(t.procs)
  {
    InitInvariant(s);
    RunInvariant(s, steps, t);
    ReadersAreWoken(s, steps, t, p);
    WritersAreWoken(s, steps, t, q);
  }

  /** A wake-up reaches whoever is registered on its queue, polls on both, and nobody else. */
  lemma WakesItsQueue(s: State, q: Pid, ch: Choice, p: Pid)
    requires q in s.procs && p in s.procs && p != q
    requires s.procs[q].pc == Past(WriteWake) || s.procs[q].pc == Past(ReadWake)
    ensures var t := Do(s, Run(q, ch)); var x := s.procs[p];
      var polls := x.pc == In(Up(PollAsleep)) || x.pc == Past(PollAsleep);
      && t.procs[q] == RESTING && t.ring == s.ring && t.sem == s.sem && t.dev == s.dev && t.hist == s.hist
      && p in t.procs
      && (s.procs[q].pc == Past(WriteWake) ==>
            t.procs[p] == if polls || x.pc == Out(ReadCheck) || x.pc == Out(ReadAsleep) then x.(woken := true) else x)
      && (s.procs[q].pc == Past(ReadWake) ==>
            t.procs[p] == if polls || x.pc == Out(WriteCheck) || x.pc == Out(WriteAsleep) then x.(woken := true) else x)
  {
  }

  /** In every reachable state a signal ends a call exactly where it sleeps, is about to sleep for
      bytes, or waits for the semaphore of an open, a read or a write; it leaves all else alone. */
  lemma SignalEndsCall(s: State, steps: seq<Step>, t: State, p: Pid)
    requires Init(s) && Leads(s, steps, t) && p in t.procs
    ensures var x := t.procs[p];
      Enabled(t, Interrupt(p)) <==>
        || Asleep(x.pc) || x.pc == Out(ReadQueue) || x.pc == Out(ReadCheck)
        || (x.pc.Down? && (x.op.Open? || x.op.Read? || x.op.Write? || x.op.Ioctl?))
    ensures Do(t, Interrupt(p)) == t.(procs := t.procs[p := RESTING])
  {
    hide Leads, LockOk, RingOk, WriteGuard, QueueOk, DeviceOk, SleepIn;
    InitInvariant(s);
    RunInvariant(s, steps, t);
    assert Fits(t.procs[p].pc, t.procs[p].op, t.dev.files);
  }

  function WakeDistance(pc: PC): nat {
    match pc
    case In(Up(_)) => 1
    case In(_) => 2
    case _ => 0
  }

  /** A wake-up on its way cannot be held up: its process is never blocked, and each of its own
      steps brings the wake-up nearer until everyone registered has been reached. */
  lemma WakeArrives(s: State, q: Pid, ch: Choice)
    requires q in s.procs && (WriterPending(s.procs[q].pc) || ReaderPending(s.procs[q].pc))
    ensures Enabled(s, Run(q, ch))
    ensures var t := Do(s, Run(q, ch));
      if WakeDistance(s.procs[q].pc) > 0 then
        && WakeDistance(t.procs[q].pc) == WakeDistance(s.procs[q].pc) - 1
        && (WriterPending(s.procs[q].pc) <==> WriterPending(t.procs[q].pc))
        && (ReaderPending(s.procs[q].pc) <==> ReaderPending(t.procs[q].pc))
      else forall p :: p in t.procs ==>
        if WriterPending(s.procs[q].pc) then !WaitsIn(t.procs[p]) else !WaitsOut(t.procs[p])
  {
  }
}
