/** A run of the sensor tunnel in which an open strands a sleeping reader and writer. */
module SensorDeadlock {
  import opened Bytes
  import opened Rings
  import opened SensorTunnels
  import opened SensorProtocol
  import opened SensorSleep

  /** Two processes: `p` (0 or 1) stands at `x`, the other at `y`. */
  function World(p: Pid, x: Proc, y: Proc, sem: Option<Pid>, r: Ring, d: Device, h: History): State
    requires p < 2
  {
    State(map[p := x, 1 - p := y], sem, r, d, h)
  }

  function On(op: Op, pc: PC): Proc {
    Proc(pc, op, false)
  }

  const BOTH := Mode(true, true)
  const OPEN0 := Open(0, BOTH)
  const OPEN1 := Open(1, BOTH)
  const SEND := Write(0, [7], false)
  const TAKE := Read(1, 1, false)

  const CLOSED := Device(map[], 0, 0, false)
  const ONE := Device(map[0 := BOTH], 1, 1, true)
  const TWO := Device(map[0 := BOTH, 1 := BOTH], 2, 2, true)

  const EMPTY := Ring([0, 0], 0, 0)
  const FULL := Ring([7, 0], 0, 1)
  const RESET := Ring([7, 0], 0, 0)

  const NIL := History([], [])
  const SENT := History([7], [])

  const START := World(0, RESTING, RESTING, None, EMPTY, CLOSED, NIL)
  const GO := Choice(false, true, [])

  /** Some run from the start ends in `t`. */
  ghost predicate Reached(t: State) {
    exists steps :: Leads(START, steps, t)
  }

  lemma Then(s: State, step: Step, t: State)
    requires Reached(s) && Enabled(s, step) && Do(s, step) == t
    ensures Reached(t)
  {
    var steps :| Leads(START, steps, s);
    LeadsOn(START, steps, s, step);
  }

  // ----- one lemma for each kind of step that the run takes

  lemma Begins(p: Pid, y: Proc, op: Op, r: Ring, d: Device, h: History)
    requires p < 2 && Reached(World(p, RESTING, y, None, r, d, h))
    requires MayBegin(World(p, RESTING, y, None, r, d, h), op) && !op.Ioctl?
    ensures Reached(World(p, On(op, Starts(op)), y, None, r, d, h))
  {
    hide Reached;
    Then(World(p, RESTING, y, None, r, d, h), Begin(p, op), World(p, On(op, Starts(op)), y, None, r, d, h));
  }

  lemma Acquires(p: Pid, x: Proc, y: Proc, r: Ring, d: Device, h: History)
    requires p < 2 && x.pc.Down? && Reached(World(p, x, y, None, r, d, h))
    ensures Reached(World(p, x.(pc := In(Enter(x.pc.entry))), y, Some(p), r, d, h))
  {
    hide Reached;
    Then(World(p, x, y, None, r, d, h), Run(p, GO), World(p, x.(pc := In(Enter(x.pc.entry))), y, Some(p), r, d, h));
  }

  lemma Releases(p: Pid, x: Proc, y: Proc, a: After, r: Ring, d: Device, h: History)
    requires p < 2 && x.pc == In(Up(a)) && Reached(World(p, x, y, Some(p), r, d, h))
    ensures Reached(World(p, At(x, Past(a)), y, None, r, d, h))
  {
    hide Reached;
    Then(World(p, x, y, Some(p), r, d, h), Run(p, GO), World(p, At(x, Past(a)), y, None, r, d, h));
  }

  lemma Tests(p: Pid, x: Proc, y: Proc, e: Entry, r: Ring, d: Device, h: History)
    requires p < 2 && x.pc == In(Enter(e)) && !e.OpenBody? && !e.CloseBody?
    requires Reached(World(p, x, y, Some(p), r, d, h))
    ensures Reached(World(p, Test(x, e, r), y, Some(p), r, d, h))
  {
    hide Reached;
    Then(World(p, x, y, Some(p), r, d, h), Run(p, GO), World(p, Test(x, e, r), y, Some(p), r, d, h));
  }

  lemma Opens(p: Pid, x: Proc, y: Proc, r: Ring, d: Device, h: History)
    requires p < 2 && x.pc == In(Enter(OpenBody)) && Reached(World(p, x, y, Some(p), r, d, h))
    ensures Reached(World(p, x.(pc := In(Up(Rest))), y, Some(p), Ring(r.cells, 0, 0),
                          OpenDevice(d, FileOf(x.op), ModeOf(x.op)), NIL))
  {
    hide Reached;
    var s := World(p, x, y, Some(p), r, d, h);
    Then(s, Run(p, GO), World(p, x.(pc := In(Up(Rest))), y, Some(p), Ring(r.cells, 0, 0),
                              OpenDevice(d, FileOf(x.op), ModeOf(x.op)), NIL));
  }

  lemma Looks(p: Pid, x: Proc, y: Proc, a: After, r: Ring, d: Device, h: History)
    requires p < 2 && x.pc == Past(a) && (a.ReadNap? || a.WriteNap?) && Reached(World(p, x, y, None, r, d, h))
    ensures Reached(World(p, Look(x, a, r), y, None, r, d, h))
  {
    hide Reached;
    Then(World(p, x, y, None, r, d, h), Run(p, GO), World(p, Look(x, a, r), y, None, r, d, h));
  }

  lemma Waits(p: Pid, x: Proc, y: Proc, o: Loop, r: Ring, d: Device, h: History)
    requires p < 2 && x.pc == Out(o) && !Asleep(x.pc) && Reached(World(p, x, y, None, r, d, h))
    ensures Reached(World(p, Wait(x, o, r), y, None, r, d, h))
  {
    hide Reached;
    Then(World(p, x, y, None, r, d, h), Run(p, GO), World(p, Wait(x, o, r), y, None, r, d, h));
  }

  /** The one byte is copied in, the pointer stays inside the block, and nobody is there to wake. */
  lemma Sends()
    requires Reached(World(0, On(SEND, In(WriteCopy)), RESTING, Some(0), EMPTY, ONE, NIL))
    ensures Reached(World(0, RESTING, RESTING, None, FULL, ONE, SENT))
  {
    hide Reached;
    var a := World(0, On(SEND, In(WriteWrap)), RESTING, Some(0), FULL, ONE, SENT);
    Then(World(0, On(SEND, In(WriteCopy)), RESTING, Some(0), EMPTY, ONE, NIL), Run(0, GO), a);
    Wakes(a);
  }

  lemma Wakes(a: State)
    requires a == World(0, On(SEND, In(WriteWrap)), RESTING, Some(0), FULL, ONE, SENT) && Reached(a)
    ensures Reached(World(0, RESTING, RESTING, None, FULL, ONE, SENT))
  {
    hide Reached;
    var b := World(0, On(SEND, In(Up(WriteWake))), RESTING, Some(0), FULL, ONE, SENT);
    Then(a, Run(0, GO), b);
    Releases(0, On(SEND, In(Up(WriteWake))), RESTING, WriteWake, FULL, ONE, SENT);
    var c := World(0, On(SEND, Past(WriteWake)), RESTING, None, FULL, ONE, SENT);
    Then(c, Run(0, GO), World(0, RESTING, RESTING, None, FULL, ONE, SENT));
  }

  // ----- the run

  lemma Asked()
    ensures Reached(World(0, On(OPEN0, In(Enter(OpenBody))), RESTING, Some(0), EMPTY, CLOSED, NIL))
  {
    assert Reached(START) by {
      assert Leads(START, [], START);
    }
    hide Reached;
    Begins(0, RESTING, OPEN0, EMPTY, CLOSED, NIL);
    Acquires(0, On(OPEN0, Down(OpenBody)), RESTING, EMPTY, CLOSED, NIL);
  }

  /** Process 0 opens a two-cell tunnel. */
  lemma Opened()
    ensures Reached(World(0, On(OPEN0, In(Up(Rest))), RESTING, Some(0), EMPTY, ONE, NIL))
  {
    hide Reached;
    Asked();
    Opens(0, On(OPEN0, In(Enter(OpenBody))), RESTING, EMPTY, CLOSED, NIL);
  }

  /** It writes one byte, which fills the ring. */
  lemma Filled()
    ensures Reached(World(0, RESTING, RESTING, None, FULL, ONE, SENT))
  {
    hide Reached;
    Opened();
    Releases(0, On(OPEN0, In(Up(Rest))), RESTING, Rest, EMPTY, ONE, NIL);
    Begins(0, RESTING, SEND, EMPTY, ONE, NIL);
    Acquires(0, On(SEND, Down(WriteTest)), RESTING, EMPTY, ONE, NIL);
    Tests(0, On(SEND, In(Enter(WriteTest))), RESTING, WriteTest, EMPTY, ONE, NIL);
    Sends();
  }

  const BLOCKED := On(SEND, Out(WriteAsleep))

  /** A second write finds it full and goes to sleep. */
  lemma WriterSleeps()
    ensures Reached(World(0, BLOCKED, RESTING, None, FULL, ONE, SENT))
  {
    hide Reached;
    Filled();
    Begins(0, RESTING, SEND, FULL, ONE, SENT);
    Acquires(0, On(SEND, Down(WriteTest)), RESTING, FULL, ONE, SENT);
    Tests(0, On(SEND, In(Enter(WriteTest))), RESTING, WriteTest, FULL, ONE, SENT);
    Releases(0, On(SEND, In(Up(WriteNap))), RESTING, WriteNap, FULL, ONE, SENT);
    Looks(0, On(SEND, Past(WriteNap)), RESTING, WriteNap, FULL, ONE, SENT);
    Waits(0, On(SEND, Out(WriteCheck)), RESTING, WriteCheck, FULL, ONE, SENT);
  }

  lemma OtherSide()
    ensures Reached(World(1, RESTING, BLOCKED, None, FULL, ONE, SENT))
  {
    hide Reached;
    WriterSleeps();
    assert World(0, BLOCKED, RESTING, None, FULL, ONE, SENT) == World(1, RESTING, BLOCKED, None, FULL, ONE, SENT);
  }

  lemma Asking()
    ensures Reached(World(1, On(OPEN1, In(Enter(OpenBody))), BLOCKED, Some(1), FULL, ONE, SENT))
  {
    hide Reached;
    OtherSide();
    Begins(1, BLOCKED, OPEN1, FULL, ONE, SENT);
    Acquires(1, On(OPEN1, Down(OpenBody)), BLOCKED, FULL, ONE, SENT);
  }

  /** Process 1 opens the tunnel, which empties it. */
  lemma Emptied()
    ensures Reached(World(1, On(OPEN1, In(Up(Rest))), BLOCKED, Some(1), RESET, TWO, NIL))
  {
    hide Reached;
    Asking();
    Opens(1, On(OPEN1, In(Enter(OpenBody))), BLOCKED, FULL, ONE, SENT);
  }

  /** Its read finds nothing and gives the semaphore back. */
  lemma ReaderNaps()
    ensures Reached(World(1, On(TAKE, In(Up(ReadNap))), BLOCKED, Some(1), RESET, TWO, NIL))
  {
    hide Reached;
    Emptied();
    Releases(1, On(OPEN1, In(Up(Rest))), BLOCKED, Rest, RESET, TWO, NIL);
    Begins(1, BLOCKED, TAKE, RESET, TWO, NIL);
    Acquires(1, On(TAKE, Down(ReadTest)), BLOCKED, RESET, TWO, NIL);
    Tests(1, On(TAKE, In(Enter(ReadTest))), BLOCKED, ReadTest, RESET, TWO, NIL);
  }

  /** It goes to sleep as well. */
  lemma ReaderSleeps()
    ensures Reached(World(1, On(TAKE, Out(ReadAsleep)), BLOCKED, None, RESET, TWO, NIL))
  {
    hide Reached;
    ReaderNaps();
    Releases(1, On(TAKE, In(Up(ReadNap))), BLOCKED, ReadNap, RESET, TWO, NIL);
    Looks(1, On(TAKE, Past(ReadNap)), BLOCKED, ReadNap, RESET, TWO, NIL);
    Waits(1, On(TAKE, Out(ReadQueue)), BLOCKED, ReadQueue, RESET, TWO, NIL);
    Waits(1, On(TAKE, Out(ReadCheck)), BLOCKED, ReadCheck, RESET, TWO, NIL);
  }

  /** An open strands a writer: the ring is empty, the writer sleeps for space, the reader for
      bytes, no wake-up is on its way and, short of a signal, neither can ever take a step. */
  lemma OpenStrandsBoth() returns (s: State, steps: seq<Step>, t: State)
    ensures Init(s) && Leads(s, steps, t) && |t.ring.cells| == 2 && Space(t.ring) == 1
    ensures t.procs.Keys == {0, 1} && WaitsOut(t.procs[0]) && WaitsIn(t.procs[1])
    ensures !SomeReader(t.procs) && !SomeWriter(t.procs)
    ensures forall p, ch :: !Enabled(t, Run(p, ch))
  {
    ReaderSleeps();
    s, t := START, World(1, On(TAKE, Out(ReadAsleep)), BLOCKED, None, RESET, TWO, NIL);
    steps :| Leads(START, steps, t);
  }
}
