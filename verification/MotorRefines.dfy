/** Every interleaving of the motor tunnel's calls does to the ring what its own calls do one
    after the other, in the order of their copy steps; so that what `MotorRuns` proves of calls
    in sequence holds under concurrency. */
module MotorRefines {
  import opened Bytes
  import opened Rings
  import opened MotorTunnels
  import opened MotorRuns
  import P = SensorProtocol
  import opened SensorProofs
  import opened SensorSleep
  import opened MotorProtocol

  /** The tape as whole calls would have left it: a pointer past the end counts as wrapped. */
  ghost predicate Shows(t: Tape, s: P.State) {
    && t.m == Motor(P.Settled(s.ring), Leaked(s))
    && Flat(t.frames) == s.hist.accepted && t.delivered == s.hist.delivered
  }

  /** The copy step of a read that does not fault. */
  predicate Reads(s: P.State, step: P.Step) {
    step.Run? && step.p in s.procs && s.procs[step.p].pc == P.In(P.ReadCopy) && !step.ch.faults
  }

  // ----- the calls of a run, in the order of their copy steps

  /** What the block held at the last open, and the calls that have reached their copy since. */
  datatype Log = Log(cells: seq<byte>, calls: seq<Event>)

  function Begun(cells: seq<byte>): Tape {
    Tape(Motor(Ring(cells, 0, 0), false), [], [], [])
  }

  /** What the logged calls do when they are made one after the other. */
  function TapeOf(l: Log): Tape
    requires l.cells != []
  {
    Play(Begun(l.cells), l.calls)
  }

  function Record(l: Log, s: P.State, step: P.Step): Log
    requires step.p in s.procs
  {
    var op := s.procs[step.p].op;
    if Resets(s, step) then Log(P.OpenCells(s, step.ch), [])
    else if Reads(s, step) then Log(l.cells, l.calls + [Read(P.CountOf(op))])
    else if AtCopy(s, step) then Log(l.cells, l.calls + [Ioctl(CommandOf(op), P.Nonblock(op))])
    else l
  }

  function Records(l: Log, s: P.State, steps: seq<P.Step>): Log
    decreases |steps|
  {
    if steps == [] || steps[0].p !in s.procs then l
    else Records(Record(l, s, steps[0]), MotorDo(s, steps[0]), steps[1..])
  }

  function LogOf(s: P.State, steps: seq<P.Step>): Log {
    Records(Log(s.ring.cells, []), s, steps)
  }

  /** The commands of the ioctls that were not refused, since the last open. */
  function Takes(c: seq<nat>, s: P.State, steps: seq<P.Step>): seq<nat>
    decreases |steps|
  {
    if steps == [] || steps[0].p !in s.procs then c
    else Takes(Took(c, s, steps[0]), MotorDo(s, steps[0]), steps[1..])
  }

  function Took(c: seq<nat>, s: P.State, step: P.Step): seq<nat>
    requires step.p in s.procs
  {
    if Resets(s, step) then []
    else if AtCopy(s, step) && !Refuses(s, step) then c + [CommandOf(s.procs[step.p].op)]
    else c
  }

  function Taken(s: P.State, steps: seq<P.Step>): seq<nat> {
    Takes([], s, steps)
  }

  ghost predicate Matches(l: Log, c: seq<nat>, s: P.State) {
    && l.cells != [] && NoOpen(l.calls)
    && Shows(TapeOf(l), s) && TapeOf(l).commands == c
  }

  lemma TapeOfMore(l: Log, e: Event)
    requires l.cells != []
    ensures TapeOf(Log(l.cells, l.calls + [e])) == Next(TapeOf(l), e)
  {
    PlayThen(Begun(l.cells), l.calls, [e]);
    PlayOne(TapeOf(l), e);
  }

  lemma OneMore(l: Log, c: seq<nat>, e: Event, c': seq<nat>, s': P.State)
    requires l.cells != [] && NoOpen(l.calls) && !e.Open?
    requires Shows(Next(TapeOf(l), e), s') && Next(TapeOf(l), e).commands == c'
    ensures Matches(Log(l.cells, l.calls + [e]), c', s')
  {
    TapeOfMore(l, e);
  }

  lemma JustBegun(s: P.State)
    requires 0 < |s.ring.cells| && s.ring.rp == s.ring.wp == 0 && !Leaked(s) && s.hist == P.History([], [])
    ensures Matches(Log(s.ring.cells, []), [], s)
  {
  }

  // ----- one step

  /** All other steps leave the settled ring and the history as they are. */
  lemma QuietSettled(s: P.State, step: P.Step)
    requires P.CanMove(s, step) && !Resets(s, step) && !Reads(s, step) && !AtCopy(s, step)
    ensures P.Settled(MotorDo(s, step).ring) == P.Settled(s.ring) && MotorDo(s, step).hist == s.hist
  {
    if step.Run? && TouchesRing(s.procs[step.p].pc) {
      TouchingSettled(s, step.p, step.ch);
    } else {
      QuietStep(s, step);
    }
  }

  lemma TouchingSettled(s: P.State, p: P.Pid, ch: P.Choice)
    requires p in s.procs && TouchesRing(s.procs[p].pc) && s.procs[p].pc != P.In(P.WriteCopy)
    requires !Resets(s, P.Run(p, ch)) && !Reads(s, P.Run(p, ch))
    ensures var t := P.Advance(s, p, ch); P.Settled(t.ring) == P.Settled(s.ring) && t.hist == s.hist
  {
  }

  lemma ReadShows(t: Tape, s: P.State, step: P.Step)
    requires Sound(s) && Reads(s, step) && Shows(t, s) && Wf(t.m.ring) && !Leaked(s) && !Leaked(MotorDo(s, step))
    ensures Shows(Next(t, Read(P.CountOf(s.procs[step.p].op))), MotorDo(s, step))
  {
    HolderIsReading(s, step);
  }

  lemma HolderIsReading(s: P.State, step: P.Step)
    requires Sound(s) && Reads(s, step)
    ensures Wf(s.ring) && s.ring.rp != s.ring.wp && P.Settled(s.ring) == s.ring
  {
  }

  /** The copy step of an ioctl is the ioctl of the sequential tunnel, refusal included. */
  lemma IoctlShows(t: Tape, s: P.State, step: P.Step)
    requires Sound(s) && AtCopy(s, step) && Shows(t, s) && Wf(t.m.ring) && QueueOk(s.ring, s.hist)
    requires !Leaked(s) && (Leaked(MotorDo(s, step)) <==> Refuses(s, step))
    ensures var op := s.procs[step.p].op; var u := Next(t, Ioctl(CommandOf(op), P.Nonblock(op)));
      && Shows(u, MotorDo(s, step))
      && u.commands == if Refuses(s, step) then t.commands else t.commands + [CommandOf(op)]
  {
    hide Leaked, Sound, Pending, WriteCount, Overwrite, Queued, Produced;
    var r := s.ring;
    HolderAtCopy(s, step);
    SpaceIsRoom(r);
    assert P.Settled(r) == r;
    if !Refuses(s, step) {
      CopyAdvances(s, step.p);
      FlatAppend(t.frames, Queued(r, CommandOf(s.procs[step.p].op)));
    }
  }

  lemma StepMatches(l: Log, c: seq<nat>, s: P.State, step: P.Step)
    requires MotorInvariant(s) && MotorEnabled(s, step) && Matches(l, c, s)
    ensures Matches(Record(l, s, step), Took(c, s, step), MotorDo(s, step))
  {
    hide MotorInvariant, P.CanMove, P.MayBegin, Flat, QueueOk, MotorDo, CommandOf;
    var s' := MotorDo(s, step);
    MotorStep(s, step);
    InsideIsSound(s, step);
    var u, op := TapeOf(l), s.procs[step.p].op;
    if Resets(s, step) {
      OpenBegins(s, step);
      JustBegun(s');
    } else if Reads(s, step) {
      ReadShows(u, s, step);
      OneMore(l, c, Read(P.CountOf(op)), c, s');
    } else if AtCopy(s, step) {
      IoctlShows(u, s, step);
      OneMore(l, c, Ioctl(CommandOf(op), P.Nonblock(op)), Took(c, s, step), s');
    } else {
      QuietSettled(s, step);
    }
  }

  lemma InsideIsSound(s: P.State, step: P.Step)
    requires MotorInvariant(s) && step.p in s.procs
    ensures s.procs[step.p].pc.In? ==> Sound(s) && !Leaked(s)
    ensures QueueOk(s.ring, s.hist)
  {
  }

  lemma OpenBegins(s: P.State, step: P.Step)
    requires Resets(s, step) && 0 < |s.ring.cells|
    ensures var s' := MotorDo(s, step);
      && s'.ring == Ring(P.OpenCells(s, step.ch), 0, 0) && s'.hist == P.History([], []) && s'.ring.cells != []
      && (s.dev.buffer ==> s'.ring.cells == s.ring.cells)
  {
  }

  lemma {:induction false} RunMatches(l: Log, c: seq<nat>, s: P.State, steps: seq<P.Step>, t: P.State)
    requires MotorInvariant(s) && MotorLeads(s, steps, t) && Matches(l, c, s)
    ensures Matches(Records(l, s, steps), Takes(c, s, steps), t)
    decreases |steps|
  {
    hide MotorInvariant, Matches, MotorDo, Record, Took, P.Allowed;
    if steps == [] {
    } else {
      StepMatches(l, c, s, steps[0]);
      MotorStep(s, steps[0]);
      RunMatches(Record(l, s, steps[0]), Took(c, s, steps[0]), MotorDo(s, steps[0]), steps[1..], t);
    }
  }

  // ----- theorems over every run

  /** Refinement: any run of any processes leaves ring, semaphore, accepted and delivered bytes as
      its own calls since the last open do, one after the other in the order of their copy steps;
      the commands taken are those of its ioctls that were not refused. */
  lemma RunsRefineCalls(s: P.State, steps: seq<P.Step>, t: P.State)
    requires P.Init(s) && MotorLeads(s, steps, t)
    ensures var l := LogOf(s, steps);
      && l.cells != [] && Opened(Begun(l.cells)) && NoOpen(l.calls)
      && Shows(TapeOf(l), t) && TapeOf(l).commands == Taken(s, steps)
  {
    hide MotorLeads;
    MotorStart(s);
    SoundIsNotLeaked(s);
    JustBegun(s);
    RunMatches(Log(s.ring.cells, []), [], s, steps, t);
  }

  /** The queue of every run, whatever is refused or reset: what came in since the last open, a
      frame for each command taken, is what went out since then, followed by the ring. */
  lemma MotorQueue(s: P.State, steps: seq<P.Step>, t: P.State)
    requires P.Init(s) && MotorLeads(s, steps, t)
    ensures Wf(P.Settled(t.ring)) && |t.hist.accepted| == 5 * |Taken(s, steps)|
    ensures t.hist.accepted == t.hist.delivered + Pending(P.Settled(t.ring))
  {
    hide Pending, MotorLeads, LogOf, Taken;
    RunsRefineCalls(s, steps, t);
    var l := LogOf(s, steps);
    StartsInOrder(Begun(l.cells));
    RunKeepsQueue(Begun(l.cells), l.calls);
    FlatAt(TapeOf(l).frames, 0);
  }

  /** Frame integrity under any interleaving: of the bytes delivered since the last open the
      i-th five decode to the command of the i-th ioctl that was not refused, if and only if that
      command is one of the five. */
  lemma FramesReachReaders(s: P.State, steps: seq<P.Step>, t: P.State, i: nat)
    requires P.Init(s) && MotorLeads(s, steps, t)
    ensures var c, d := Taken(s, steps), t.hist.delivered;
      && |d| <= 5 * |c|
      && (5 * i + 5 <= |d| ==> (Decode(d[5 * i..5 * i + 4]) == c[i] <==> FrameOf(c[i]).Some?))
  {
    hide MotorLeads, LogOf, Taken, Decode, FrameOf, Play;
    RunsRefineCalls(s, steps, t);
    var l := LogOf(s, steps);
    FramesArriveInOrder(Begun(l.cells), l.calls, i);
  }

  /** Every read of the run asks for a whole number of frames. */
  ghost predicate AsksInFrames(steps: seq<P.Step>) {
    forall i :: 0 <= i < |steps| && steps[i].Begin? ==> P.CountOf(steps[i].op) % 5 == 0
  }

  ghost predicate ReadersInFives(procs: P.Procs) {
    forall p :: p in procs ==> P.CountOf(procs[p].op) % 5 == 0
  }

  lemma StepInFives(l: Log, s: P.State, step: P.Step)
    requires MotorEnabled(s, step) && ReadersInFives(s.procs) && FrameReads(l.calls)
    requires OthersStand(s.procs, MotorDo(s, step).procs, step.p)
    requires step.Begin? ==> P.CountOf(step.op) % 5 == 0
    ensures ReadersInFives(MotorDo(s, step).procs) && FrameReads(Record(l, s, step).calls)
  {
    hide MotorDo, P.CanMove, P.MayBegin;
    MoverOp(s, step);
  }

  lemma {:induction false} RunInFives(l: Log, s: P.State, steps: seq<P.Step>, t: P.State)
    requires MotorInvariant(s) && MotorLeads(s, steps, t)
    requires ReadersInFives(s.procs) && FrameReads(l.calls) && AsksInFrames(steps)
    ensures FrameReads(Records(l, s, steps).calls)
    decreases |steps|
  {
    hide MotorDo, Record, ReadersInFives, FrameReads;
    if steps == [] {
    } else {
      StepStands(s, steps[0]);
      MotorStep(s, steps[0]);
      StepInFives(l, s, steps[0]);
      assert forall i :: 0 <= i < |steps[1..]| ==> steps[1..][i] == steps[i + 1];
      RunInFives(Record(l, s, steps[0]), MotorDo(s, steps[0]), steps[1..], t);
    }
  }

  lemma StepStands(s: P.State, step: P.Step)
    requires MotorInvariant(s) && MotorEnabled(s, step)
    ensures OthersStand(s.procs, MotorDo(s, step).procs, step.p)
  {
    hide P.CanMove, MotorDo, OthersStand, MoveIn, Sound, Leaked, QueueOk;
    InsideFindsRing(s, step);
    MotorMovesIn(s, step);
  }

  /** If five divides the size and every read asks for whole frames, whole frames are delivered,
      and whole frames are waiting. */
  lemma WholeFramesReachReaders(s: P.State, steps: seq<P.Step>, t: P.State)
    requires P.Init(s) && MotorLeads(s, steps, t) && |t.ring.cells| % 5 == 0 && AsksInFrames(steps)
    ensures Wf(P.Settled(t.ring))
    ensures |t.hist.delivered| % 5 == 0 && |Pending(P.Settled(t.ring))| % 5 == 0
  {
    hide Pending, MotorLeads, MotorInvariant, Play;
    MotorStart(s);
    RunInFives(Log(s.ring.cells, []), s, steps, t);
    RunsRefineCalls(s, steps, t);
    var l := LogOf(s, steps);
    DeliversWholeFrames(Begun(l.cells), l.calls);
    MotorQueue(s, steps, t);
  }

  lemma CopyAnswers(s: P.State, step: P.Step, t: Tape)
    requires Sound(s) && AtCopy(s, step) && Shows(t, s)
    ensures !t.m.held && t.m.ring == s.ring && Wf(s.ring) && |Pending(s.ring)| != |s.ring.cells| - 1
    ensures forall nonblock :: Refuses(s, step) <==> IoctlOutcome(t.m, nonblock) == Refused
    ensures forall nonblock :: !Refuses(s, step) <==> IoctlOutcome(t.m, nonblock) == Accepted
  {
    HolderAtCopy(s, step);
    SoundIsNotLeaked(s);
    SpaceIsRoom(s.ring);
    RoomAndPending(s.ring);
  }

  /** Under any interleaving: an ioctl that gets past its wait is refused, and the semaphore
      lost, exactly if less than a frame is free in a ring of a multiple of five, or if N/5
      commands are in since the last open in any other. */
  lemma RefusedExactlyWhen(s: P.State, steps: seq<P.Step>, t: P.State, step: P.Step)
    requires P.Init(s) && MotorLeads(s, steps, t) && AtCopy(t, step)
    ensures Wf(t.ring)
    ensures var n := |t.ring.cells|;
      Refuses(t, step) <==>
        if n % 5 == 0 then |Pending(t.ring)| >= n - 5 else |Taken(s, steps)| == n / 5
  {
    hide Pending, MotorLeads, LogOf, Taken, Play;
    MotorStart(s);
    MotorRun(s, steps, t);
    RunsRefineCalls(s, steps, t);
    InsideIsSound(t, step);
    var l := LogOf(s, steps);
    CopyAnswers(t, step, TapeOf(l));
    ExactCapacity(Begun(l.cells), l.calls, 0, false);
    if |t.ring.cells| % 5 != 0 {
      OneLapOnly(Begun(l.cells), l.calls, 0, false, []);
    }
  }

  lemma CopyQueues(s: P.State, step: P.Step)
    requires AtCopy(s, step) && Wf(s.ring) && !Refuses(s, step)
    ensures MotorDo(s, step).hist.accepted == s.hist.accepted + Queued(s.ring, CommandOf(s.procs[step.p].op))
  {
  }

  /** Behind the bytes `a`, `q` repeats those of one lap before or, on the first lap, the old cells
      of the block; if five does not divide the size there is no second lap. */
  ghost predicate QueuesOld(cells: seq<byte>, a: seq<byte>, q: seq<byte>) {
    var n := |cells|;
    0 < n && |a| % 5 == 0 &&
    if |a| < n - n % 5 then q == cells[|a|..|a| + 5]
    else n % 5 == 0 && q == a[|a| - n..|a| - n + 5]
  }

  lemma CallQueues(l: Log, command: nat)
    requires l.cells != [] && NoOpen(l.calls) && FrameOf(command).None?
    requires IoctlOutcome(TapeOf(l).m, false) == Accepted
    ensures QueuesOld(l.cells, Flat(TapeOf(l).frames), Queued(TapeOf(l).m.ring, command))
  {
    hide Play, Pending;
    var t, u, n := Begun(l.cells), TapeOf(l), |l.cells|;
    var v := Next(u, Ioctl(command, false));
    assert v.frames[|u.frames|] == Queued(u.m.ring, command);
    StartsInOrder(t);
    RunKeepsQueue(t, l.calls);
    ExactCapacity(t, l.calls, command, false);
    FlatAt(u.frames, 0);
    if |u.frames| < n / 5 {
      UnrecognisedQueuesOldCells(t, l.calls, command, false);
    } else {
      UnrecognisedReplays(t, l.calls, command, false);
      FlatAt(u.frames, |u.frames| - n / 5);
    }
  }

  /** An unrecognised command under any interleaving: the five bytes it queues are those that
      came in exactly one lap before or, on the first lap, what the block held at the open. */
  lemma UnrecognisedAcrossProcesses(s: P.State, steps: seq<P.Step>, t: P.State, step: P.Step)
    requires P.Init(s) && MotorLeads(s, steps, t) && AtCopy(t, step) && !Refuses(t, step)
    requires FrameOf(CommandOf(t.procs[step.p].op)).None?
    ensures var a, a' := t.hist.accepted, MotorDo(t, step).hist.accepted;
      a <= a' && QueuesOld(LogOf(s, steps).cells, a, a'[|a|..])
  {
    hide Pending, MotorLeads, LogOf, Taken, Play, Flat, QueuesOld, MotorDo;
    MotorStart(s);
    MotorRun(s, steps, t);
    RunsRefineCalls(s, steps, t);
    InsideIsSound(t, step);
    CopyAnswers(t, step, TapeOf(LogOf(s, steps)));
    CopyQueues(t, step);
    CallQueues(LogOf(s, steps), CommandOf(t.procs[step.p].op));
  }
}
