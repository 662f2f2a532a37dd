/** Runs of the motor tunnel with one process: every sequence of calls is made by some run, so
    that what whole calls can reach the interleaved steps reach as well. */
module MotorWitness {
  import opened Bytes
  import opened Rings
  import opened SensorTunnels
  import opened MotorTunnels
  import opened MotorRuns
  import P = SensorProtocol
  import opened MotorProtocol
  import opened MotorRefines

  /** Process 0, alone. */
  function Solo(x: P.Proc, sem: Option<P.Pid>, r: Ring, d: P.Device, h: P.History): P.State {
    P.State(map[0 := x], sem, r, d, h)
  }

  function On(op: P.Op, pc: P.PC): P.Proc {
    P.Proc(pc, op, false)
  }

  const BOTH := Mode(true, true)
  const NEITHER := Mode(false, false)
  const CLOSED := P.Device(map[], 0, 0, false)
  const ONE := P.Device(map[0 := BOTH], 1, 1, true)
  const NIL := P.History([], [])
  const OPEN := P.Open(0, BOTH)

  /** The tunnel before its first open. */
  function Fresh(cells: seq<byte>): P.State {
    Solo(P.RESTING, None, Ring(cells, 0, 0), CLOSED, NIL)
  }

  /** Between two calls, file 0 open for reading and writing. */
  function Idle(r: Ring, h: P.History): P.State {
    Solo(P.RESTING, None, r, ONE, h)
  }

  ghost predicate Reached(s: P.State, t: P.State) {
    exists steps :: MotorLeads(s, steps, t)
  }

  lemma {:induction false} MotorLeadsOn(s: P.State, steps: seq<P.Step>, t: P.State, step: P.Step)
    requires MotorLeads(s, steps, t) && MotorEnabled(t, step)
    ensures MotorLeads(s, steps + [step], MotorDo(t, step))
    decreases |steps|
  {
    hide P.Allowed, MotorDo;
    if steps == [] {
      assert steps + [step] == [step];
      assert MotorLeads(MotorDo(t, step), [], MotorDo(t, step));
    } else {
      assert (steps + [step])[1..] == steps[1..] + [step];
      MotorLeadsOn(MotorDo(s, steps[0]), steps[1..], t, step);
    }
  }

  lemma Then(s: P.State, t: P.State, step: P.Step, u: P.State)
    requires Reached(s, t) && MotorEnabled(t, step) && MotorDo(t, step) == u
    ensures Reached(s, u)
  {
    hide MotorEnabled, MotorDo;
    var steps :| MotorLeads(s, steps, t);
    MotorLeadsOn(s, steps, t, step);
  }

  // ----- the steps that every call takes

  lemma Starts(s: P.State, op: P.Op, r: Ring, d: P.Device, h: P.History)
    requires Reached(s, Solo(P.RESTING, None, r, d, h))
    requires P.MayBegin(Solo(P.RESTING, None, r, d, h), op) && !op.Write?
    ensures Reached(s, Solo(On(op, P.Starts(op)), None, r, d, h))
  {
    hide Reached;
    Then(s, Solo(P.RESTING, None, r, d, h), P.Begin(0, op), Solo(On(op, P.Starts(op)), None, r, d, h));
  }

  lemma Acquires(s: P.State, op: P.Op, e: P.Entry, r: Ring, d: P.Device, h: P.History)
    requires Reached(s, Solo(On(op, P.Down(e)), None, r, d, h))
    ensures Reached(s, Solo(On(op, P.In(P.Enter(e))), Some(0), r, d, h))
  {
    hide Reached;
    Then(s, Solo(On(op, P.Down(e)), None, r, d, h), P.Run(0, P.Choice(false, true, [])),
         Solo(On(op, P.In(P.Enter(e))), Some(0), r, d, h));
  }

  /** Up, and the wake-ups that follow a copy: nobody else is there to be woken. */
  lemma Leaves(s: P.State, op: P.Op, a: P.After, r: Ring, d: P.Device, h: P.History)
    requires a == P.Rest || a == P.ReadWake || a == P.WriteWake
    requires Reached(s, Solo(On(op, P.In(P.Up(a))), Some(0), r, d, h))
    ensures Reached(s, Solo(P.RESTING, None, r, d, h))
  {
    hide Reached;
    var go := P.Run(0, P.Choice(false, true, []));
    var x := P.At(On(op, P.In(P.Up(a))), P.Past(a));
    Then(s, Solo(On(op, P.In(P.Up(a))), Some(0), r, d, h), go, Solo(x, None, r, d, h));
    if a != P.Rest {
      Wakes(s, op, a, r, d, h);
    }
  }

  lemma Wakes(s: P.State, op: P.Op, a: P.After, r: Ring, d: P.Device, h: P.History)
    requires a == P.ReadWake || a == P.WriteWake
    requires Reached(s, Solo(On(op, P.Past(a)), None, r, d, h))
    ensures Reached(s, Solo(P.RESTING, None, r, d, h))
  {
    hide Reached;
    Then(s, Solo(On(op, P.Past(a)), None, r, d, h), P.Run(0, P.Choice(false, true, [])),
         Solo(P.RESTING, None, r, d, h));
  }

  // ----- an open, a read, an ioctl

  lemma Opens(cells: seq<byte>)
    requires cells != []
    ensures Reached(Fresh(cells), Idle(Ring(cells, 0, 0), NIL))
  {
    hide Reached;
    var s, r := Fresh(cells), Ring(cells, 0, 0);
    Here(s);
    Starts(s, OPEN, r, CLOSED, NIL);
    Acquires(s, OPEN, P.OpenBody, r, CLOSED, NIL);
    Then(s, Solo(On(OPEN, P.In(P.Enter(P.OpenBody))), Some(0), r, CLOSED, NIL),
         P.Run(0, P.Choice(false, true, cells)), Solo(On(OPEN, P.In(P.Up(P.Rest))), Some(0), r, ONE, NIL));
    Leaves(s, OPEN, P.Rest, r, ONE, NIL);
  }

  lemma Here(s: P.State)
    ensures Reached(s, s)
  {
    assert MotorLeads(s, [], s);
  }

  lemma ReachesReadCopy(s: P.State, op: P.Op, r: Ring, h: P.History)
    requires Reached(s, Idle(r, h)) && op.Read? && op.file == 0 && r.rp != r.wp
    ensures Reached(s, Solo(On(op, P.In(P.ReadCopy)), Some(0), r, ONE, h))
  {
    hide Reached;
    Starts(s, op, r, ONE, h);
    Acquires(s, op, P.ReadTest, r, ONE, h);
    Then(s, Solo(On(op, P.In(P.Enter(P.ReadTest))), Some(0), r, ONE, h), P.Run(0, P.Choice(false, true, [])),
         Solo(On(op, P.In(P.ReadCopy)), Some(0), r, ONE, h));
  }

  lemma MakesRead(s: P.State, count: nat, r: Ring, h: P.History)
    requires Reached(s, Idle(r, h)) && Wf(r) && r.rp != r.wp
    ensures var k := ReadCount(r, count);
      Reached(s, Idle(Consumed(r, k), h.(delivered := h.delivered + r.cells[r.rp..r.rp + k])))
  {
    hide Reached, ReadCount;
    var op, k := P.Read(0, count, true), ReadCount(r, count);
    var r', h' := r.(rp := r.rp + k), h.(delivered := h.delivered + r.cells[r.rp..r.rp + k]);
    var go := P.Run(0, P.Choice(false, true, []));
    ReachesReadCopy(s, op, r, h);
    Then(s, Solo(On(op, P.In(P.ReadCopy)), Some(0), r, ONE, h), go,
         Solo(On(op, P.In(P.ReadWrap)), Some(0), r', ONE, h'));
    Then(s, Solo(On(op, P.In(P.ReadWrap)), Some(0), r', ONE, h'), go,
         Solo(On(op, P.In(P.Up(P.ReadWake))), Some(0), Consumed(r, k), ONE, h'));
    Leaves(s, op, P.ReadWake, Consumed(r, k), ONE, h');
  }

  lemma ReachesWriteCopy(s: P.State, op: P.Op, r: Ring, d: P.Device, h: P.History)
    requires Reached(s, Solo(P.RESTING, None, r, d, h)) && op.Ioctl? && op.file in d.files && P.Space(r) != 0
    ensures Reached(s, Solo(On(op, P.In(P.WriteCopy)), Some(0), r, d, h))
  {
    hide Reached, P.Space;
    Starts(s, op, r, d, h);
    Acquires(s, op, P.WriteTest, r, d, h);
    Then(s, Solo(On(op, P.In(P.Enter(P.WriteTest))), Some(0), r, d, h), P.Run(0, P.Choice(false, true, [])),
         Solo(On(op, P.In(P.WriteCopy)), Some(0), r, d, h));
  }

  lemma MakesIoctl(s: P.State, command: nat, r: Ring, h: P.History)
    requires Reached(s, Idle(r, h)) && Wf(r) && Room(r) != 0 && WriteCount(r, CMD_STR_LEN) == CMD_STR_LEN
    ensures var f := Queued(r, command);
      Reached(s, Idle(Produced(r, f), h.(accepted := h.accepted + f)))
  {
    hide Reached, Room, WriteCount, Queued;
    var op, f := P.Ioctl(0, command, true), Queued(r, command);
    var r', h' := Ring(Overwrite(r.cells, r.wp, f), r.rp, r.wp + |f|), h.(accepted := h.accepted + f);
    var go := P.Run(0, P.Choice(false, true, []));
    SpaceIsRoom(r);
    ReachesWriteCopy(s, op, r, ONE, h);
    Then(s, Solo(On(op, P.In(P.WriteCopy)), Some(0), r, ONE, h), go,
         Solo(On(op, P.In(P.WriteWrap)), Some(0), r', ONE, h'));
    Then(s, Solo(On(op, P.In(P.WriteWrap)), Some(0), r', ONE, h'), go,
         Solo(On(op, P.In(P.Up(P.WriteWake))), Some(0), Produced(r, f), ONE, h'));
    Leaves(s, op, P.WriteWake, Produced(r, f), ONE, h');
  }

  lemma MakesRefusal(s: P.State, command: nat, r: Ring, h: P.History)
    requires Reached(s, Idle(r, h)) && Wf(r) && Room(r) != 0 && WriteCount(r, CMD_STR_LEN) < CMD_STR_LEN
    ensures Reached(s, Solo(P.RESTING, Some(0), r, ONE, h))
  {
    hide Reached, Room, WriteCount;
    var op := P.Ioctl(0, command, true);
    SpaceIsRoom(r);
    ReachesWriteCopy(s, op, r, ONE, h);
    Then(s, Solo(On(op, P.In(P.WriteCopy)), Some(0), r, ONE, h), P.Run(0, P.Choice(false, true, [])),
         Solo(P.RESTING, Some(0), r, ONE, h));
  }

  // ----- every sequence of calls

  /** The state that shows the tape between two calls of process 0. */
  function StateOf(t: Tape): P.State {
    Solo(P.RESTING, if t.m.held then Some(0) else None, t.m.ring, ONE, P.History(Flat(t.frames), t.delivered))
  }

  lemma MakesCall(s: P.State, t: Tape, e: Event)
    requires Reached(s, StateOf(t)) && Wf(t.m.ring) && !e.Open?
    ensures Reached(s, StateOf(Next(t, e)))
  {
    hide Reached, ReadCount, Queued, Room, WriteCount, Flat;
    var r, h := t.m.ring, P.History(Flat(t.frames), t.delivered);
    if t.m.held {
      HeldIsForever(t, [e]);
      PlayOne(t, e);
    } else if e.Ioctl? {
      IoctlCase(s, t, e.command, e.nonblock);
    } else if r.rp != r.wp {
      MakesRead(s, e.count, r, h);
    } else {
      assert r.cells[r.rp..r.rp] == [];
      assert Next(t, e) == t;
    }
  }

  lemma IoctlCase(s: P.State, t: Tape, command: nat, nonblock: bool)
    requires Reached(s, StateOf(t)) && Wf(t.m.ring) && !t.m.held
    ensures Reached(s, StateOf(Next(t, Ioctl(command, nonblock))))
  {
    hide Reached, Queued, Room, WriteCount, Flat;
    var r, h := t.m.ring, P.History(Flat(t.frames), t.delivered);
    match IoctlOutcome(t.m, nonblock) {
      case Accepted =>
        MakesIoctl(s, command, r, h);
        FlatAppend(t.frames, Queued(r, command));
      case Refused =>
        MakesRefusal(s, command, r, h);
      case _ =>
    }
  }

  lemma {:induction false} MakesCalls(s: P.State, t: Tape, events: seq<Event>)
    requires Reached(s, StateOf(t)) && Wf(t.m.ring) && NoOpen(events)
    ensures Reached(s, StateOf(Play(t, events)))
    decreases |events|
  {
    hide Reached, StateOf, Next;
    if events == [] {
    } else {
      assert !events[0].Open?;
      assert forall i :: 0 <= i < |events[1..]| ==> events[1..][i] == events[i + 1];
      MakesCall(s, t, events[0]);
      MakesCalls(s, Next(t, events[0]), events[1..]);
    }
  }

  /** The converse of the refinement: whatever whole calls after an open do to a tunnel over any
      block, some run of interleaved steps does. */
  lemma CallsAreRuns(cells: seq<byte>, events: seq<Event>) returns (steps: seq<P.Step>, t: P.State)
    requires cells != [] && NoOpen(events)
    ensures P.Init(Fresh(cells)) && MotorLeads(Fresh(cells), steps, t)
    ensures Shows(Play(Begun(cells), events), t)
  {
    hide Play, MotorLeads;
    Opens(cells);
    assert StateOf(Begun(cells)) == Idle(Ring(cells, 0, 0), NIL);
    MakesCalls(Fresh(cells), Begun(cells), events);
    var u := Play(Begun(cells), events);
    t := StateOf(u);
    steps :| MotorLeads(Fresh(cells), steps, t);
  }

  lemma {:induction false} RunKeepsSize(s: P.State, steps: seq<P.Step>, t: P.State)
    requires MotorLeads(s, steps, t)
    ensures |t.ring.cells| == |s.ring.cells|
    decreases |steps|
  {
    hide P.Allowed;
    if steps == [] {
    } else {
      StepKeepsSize(s, steps[0]);
      RunKeepsSize(MotorDo(s, steps[0]), steps[1..], t);
    }
  }

  lemma StepKeepsSize(s: P.State, step: P.Step)
    requires step.p in s.procs
    ensures |MotorDo(s, step).ring.cells| == |s.ring.cells|
  {
  }

  lemma OneCellIsNeverLost(s: P.State, steps: seq<P.Step>, t: P.State)
    requires P.Init(s) && MotorLeads(s, steps, t) && |s.ring.cells| == 1
    ensures !Leaked(t)
  {
    hide MotorLeads;
    RunsRefineCalls(s, steps, t);
    RunKeepsSize(s, steps, t);
    var l := LogOf(s, steps);
    assert |TapeOf(l).m.ring.cells| == |l.cells|;
    OneCellIsGentle(Begun(l.cells), l.calls);
    LostIffOverfull(Begun(l.cells), l.calls);
  }

  /** Some run of some processes loses the semaphore if and only if the block has two cells or
      more: `LostExactlyByRefusal` and `RefusalEndsTunnel` speak of runs that exist. */
  lemma RunLosesIffTwoCells(cells: seq<byte>)
    requires cells != []
    ensures (exists s, steps, t :: P.Init(s) && s.ring.cells == cells && MotorLeads(s, steps, t) && Leaked(t))
      <==> |cells| >= 2
  {
    hide MotorLeads;
    if |cells| >= 2 {
      LosingRunLoses(Begun(cells), PI_CMD_STOP, true);
      var steps, t := CallsAreRuns(cells, LosingRun(|cells|, PI_CMD_STOP, true));
    } else {
      forall s, steps, t | P.Init(s) && s.ring.cells == cells && MotorLeads(s, steps, t) ensures !Leaked(t) {
        OneCellIsNeverLost(s, steps, t);
      }
    }
  }

  // ----- an ioctl that outlives the buffer

  const SHUT := P.Device(map[0 := BOTH, 1 := NEITHER], 1, 1, true)
  const BARE := P.Device(map[1 := NEITHER], 0, 0, false)

  lemma OpensNeither(s: P.State, r: Ring)
    requires Reached(s, Idle(r, NIL)) && r.rp == r.wp == 0
    ensures Reached(s, Solo(P.RESTING, None, r, SHUT, NIL))
  {
    hide Reached;
    var op := P.Open(1, NEITHER);
    Starts(s, op, r, ONE, NIL);
    Acquires(s, op, P.OpenBody, r, ONE, NIL);
    Then(s, Solo(On(op, P.In(P.Enter(P.OpenBody))), Some(0), r, ONE, NIL), P.Run(0, P.Choice(false, true, [])),
         Solo(On(op, P.In(P.Up(P.Rest))), Some(0), r, SHUT, NIL));
    Leaves(s, op, P.Rest, r, SHUT, NIL);
  }

  lemma ClosesBoth(s: P.State, r: Ring)
    requires Reached(s, Solo(P.RESTING, None, r, SHUT, NIL))
    ensures Reached(s, Solo(P.RESTING, None, r, BARE, NIL))
  {
    hide Reached;
    var op := P.Close(0);
    Starts(s, op, r, SHUT, NIL);
    Acquires(s, op, P.CloseBody, r, SHUT, NIL);
    assert SHUT.files - {0} == BARE.files;
    Then(s, Solo(On(op, P.In(P.Enter(P.CloseBody))), Some(0), r, SHUT, NIL), P.Run(0, P.Choice(false, true, [])),
         Solo(On(op, P.In(P.Up(P.Rest))), Some(0), r, BARE, NIL));
    Leaves(s, op, P.Rest, r, BARE, NIL);
  }

  /** A file opened neither for reading nor for writing does not keep the buffer: in this run, for
      every size from two cells on, its ioctl stands at the copy when the buffer has been freed. */
  lemma IoctlOutlivesBuffer(cells: seq<byte>) returns (steps: seq<P.Step>, t: P.State)
    requires |cells| >= 2
    ensures P.Init(Fresh(cells)) && MotorLeads(Fresh(cells), steps, t)
    ensures 0 in t.procs && t.procs[0].pc == P.In(P.WriteCopy) && !t.dev.buffer
  {
    hide MotorLeads;
    var s, r := Fresh(cells), Ring(cells, 0, 0);
    Opens(cells);
    OpensNeither(s, r);
    ClosesBoth(s, r);
    var op := P.Ioctl(1, PI_CMD_STOP, true);
    ReachesWriteCopy(s, op, r, BARE, NIL);
    t := Solo(On(op, P.In(P.WriteCopy)), Some(0), r, BARE, NIL);
    steps :| MotorLeads(s, steps, t);
  }
}
