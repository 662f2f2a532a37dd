/**
 The sensor tunnel of pod/driver/sensor_tun.c under any number of processes, as a state
 machine over the points where its calls can be interleaved: taking and releasing the
 semaphore, the condition checks made without it, falling asleep and waking up.
 */
module SensorProtocol {
  import opened Bytes
  import opened Rings
  import opened SensorTunnels

  type Pid = nat
  type File = nat

  /** The call a process is making; only the sensor tunnel has a write, only the motor tunnel an ioctl. */
  datatype Op =
    | NoOp
    | Open(file: File, mode: Mode)
    | Close(file: File)
    | Read(file: File, count: nat, nonblock: bool)
    | Write(file: File, data: seq<byte>, nonblock: bool)
    | Ioctl(file: File, command: nat, nonblock: bool)
    | Poll(file: File, wantIn: bool, wantOut: bool)

  /** Where an `up` leaves a process: between calls (`Rest`); at the O_NONBLOCK test and first look
      after lines 96 and 132 (`ReadNap`, `WriteNap`); before the wake-ups of lines 122 and 187
      (`ReadWake`, `WriteWake`); or asleep in poll, on both queues since lines 199-200. */
  datatype After = Rest | ReadNap | ReadWake | WriteNap | WriteWake | PollAsleep

  /** The points of the two wait loops: queueing up, checking and sleeping inside the
      wait_event_interruptible of line 102, and the check and sleep of lines 137-138. */
  datatype Loop = ReadQueue | ReadCheck | ReadAsleep | WriteCheck | WriteAsleep

  /** What each call does first once it has the semaphore: lines 48-63, 74-81, 199-204, 95 and 129. */
  datatype Entry = OpenBody | CloseBody | PollBody | ReadTest | WriteTest

  /** Program points with the semaphore: the copies with the pointer advance (lines 109-117 and
      170-180), the wrap that follows (118-119 and 181-182), and the release: `Up(a)` goes on at `a`. */
  datatype Inside = Enter(entry: Entry) | ReadCopy | ReadWrap | WriteCopy | WriteWrap | Up(next: After)

  /** `Down(e)` waits for the semaphore to go on at `e`. */
  datatype PC = Down(entry: Entry) | In(at: Inside) | Past(after: After) | Out(point: Loop)

  /** `woken` is the flag a wake-up sets on every process registered on the queue. */
  datatype Proc = Proc(pc: PC, op: Op, woken: bool)

  const RESTING := Proc(Past(Rest), NoOp, false)

  type Procs = map<Pid, Proc>

  datatype Device = Device(files: map<File, Mode>, nreaders: int, nwriters: int, buffer: bool)

  /** What the calls have taken in and handed out since the last open. */
  datatype History = History(accepted: seq<byte>, delivered: seq<byte>)

  datatype State = State(procs: Procs, sem: Option<Pid>, ring: Ring, dev: Device, hist: History)

  /** Everything the kernel or the hardware decides: user-copy faults, allocation, and the
      bytes that a fresh block holds or that a faulting copy leaves behind. */
  datatype Choice = Choice(faults: bool, allocates: bool, junk: seq<byte>)

  datatype Step = Begin(p: Pid, op: Op) | Interrupt(p: Pid) | Run(p: Pid, ch: Choice)

  // ----- the program text, by program point

  predicate Asleep(pc: PC) {
    pc == Out(ReadAsleep) || pc == Out(WriteAsleep) || pc == Past(PollAsleep)
  }

  /** Points at which a signal (or, for a poll, a timeout) ends the call. */
  predicate Interruptible(pc: PC) {
    match pc
    case Down(e) => e.OpenBody? || e.ReadTest? || e.WriteTest?
    case In(_) => false
    case Past(a) => a.PollAsleep?
    case Out(o) => !o.WriteCheck?
  }

  /** Registered on the readers' queue, and still going to look at the flag. */
  predicate OnInq(pc: PC) {
    pc == Out(ReadCheck) || pc == Out(ReadAsleep) || pc == In(Up(PollAsleep)) || pc == Past(PollAsleep)
  }

  predicate OnOutq(pc: PC) {
    pc == Out(WriteCheck) || pc == Out(WriteAsleep) || pc == In(Up(PollAsleep)) || pc == Past(PollAsleep)
  }

  function WakeIn(procs: Procs): Procs {
    map p | p in procs :: if OnInq(procs[p].pc) then procs[p].(woken := true) else procs[p]
  }

  function WakeOut(procs: Procs): Procs {
    map p | p in procs :: if OnOutq(procs[p].pc) then procs[p].(woken := true) else procs[p]
  }

  function Space(r: Ring): int {
    if r.wp <= |r.cells| && 0 < |r.cells| then SpaceFree(|r.cells|, r.rp, r.wp) else 0
  }

  /** The pointers as they stand after a wrap that is still to be made. */
  function Settled(r: Ring): Ring {
    Ring(r.cells, Wrap(r.rp, |r.cells|), Wrap(r.wp, |r.cells|))
  }

  function At(x: Proc, pc: PC): Proc {
    if pc == Past(Rest) then RESTING else x.(pc := pc)
  }

  function Starts(op: Op): PC {
    match op
    case NoOp => Past(Rest)
    case Open(_, _) => Down(OpenBody)
    case Close(_) => Down(CloseBody)
    case Read(_, _, _) => Down(ReadTest)
    case Write(_, _, _) => Down(WriteTest)
    case Ioctl(_, _, _) => Down(WriteTest)
    case Poll(_, _, _) => Down(PollBody)
  }

  predicate Nonblock(op: Op) {
    (op.Read? || op.Write? || op.Ioctl?) && op.nonblock
  }

  predicate Ready(op: Op, r: Ring) {
    op.Poll? && ((op.wantIn && r.rp != r.wp) || (op.wantOut && Space(r) != 0))
  }

  /** The three points that test the ring under the semaphore. */
  function Test(x: Proc, e: Entry, r: Ring): Proc {
    match e
    case ReadTest => At(x, In(if r.rp == r.wp then Up(ReadNap) else ReadCopy))
    case WriteTest => At(x, In(if Space(r) == 0 then Up(WriteNap) else WriteCopy))
    case _ => Proc(In(Up(if Ready(x.op, r) then Rest else PollAsleep)), x.op, false)
  }

  /** The points outside that do not wake anyone: the first looks after an `up`, and the wait loops. */
  function Look(x: Proc, a: After, r: Ring): Proc {
    match a
    case ReadNap =>
      At(x, if Nonblock(x.op) then Past(Rest) else if r.rp != r.wp then Down(ReadTest) else Out(ReadQueue))
    case WriteNap => if Nonblock(x.op) then RESTING else Proc(Out(WriteCheck), x.op, false)
    case PollAsleep => At(x, Down(PollBody))
    case _ => RESTING
  }

  function Wait(x: Proc, o: Loop, r: Ring): Proc {
    match o
    case ReadQueue => Proc(Out(ReadCheck), x.op, false)
    case ReadCheck => At(x, if r.rp != r.wp then Down(ReadTest) else Out(ReadAsleep))
    case ReadAsleep => At(x, Out(ReadQueue))
    case WriteCheck => At(x, if Space(r) == 0 then Out(WriteAsleep) else Down(WriteTest))
    case WriteAsleep => At(x, Down(WriteTest))
  }

  function Bool(b: bool): int {
    if b then 1 else 0
  }

  function FileOf(op: Op): File {
    if op.NoOp? then 0 else op.file
  }

  function ModeOf(op: Op): Mode {
    if op.Open? then op.mode else Mode(false, false)
  }

  function CountOf(op: Op): nat {
    if op.Read? then op.count else 0
  }

  function DataOf(op: Op): seq<byte> {
    if op.Write? then op.data else []
  }

  function OpenDevice(d: Device, f: File, m: Mode): Device {
    Device(d.files[f := m], d.nreaders + Bool(m.read), d.nwriters + Bool(m.write), true)
  }

  function CloseDevice(d: Device, f: File): Device
    requires f in d.files
  {
    var nr := d.nreaders - Bool(d.files[f].read);
    var nw := d.nwriters - Bool(d.files[f].write);
    Device(d.files - {f}, nr, nw, d.buffer && nr + nw != 0)
  }

  /** The cells of a block that is allocated in this step, or that is already there. */
  function OpenCells(s: State, ch: Choice): (c: seq<byte>)
    ensures |c| == |s.ring.cells|
  {
    if !s.dev.buffer && |ch.junk| == |s.ring.cells| then ch.junk else s.ring.cells
  }

  function Move(s: State, p: Pid, pc: PC): State
    requires p in s.procs
  {
    s.(procs := s.procs[p := At(s.procs[p], pc)])
  }

  function OpenStep(s: State, p: Pid, ch: Choice): State
    requires p in s.procs
  {
    var op := s.procs[p].op;
    if s.dev.buffer || ch.allocates then
      State(s.procs[p := At(s.procs[p], In(Up(Rest)))], s.sem, Ring(OpenCells(s, ch), 0, 0),
            OpenDevice(s.dev, FileOf(op), ModeOf(op)), History([], []))
    else Move(s, p, In(Up(Rest)))
  }

  // The three steps below test that the file is open or that both pointers lie inside the
  // block; `UsersOk` and `RingOk` show that these tests never fail where they are made.

  function CloseStep(s: State, p: Pid): State
    requires p in s.procs
  {
    var f := FileOf(s.procs[p].op);
    if f in s.dev.files then Move(s, p, In(Up(Rest))).(dev := CloseDevice(s.dev, f)) else Move(s, p, In(Up(Rest)))
  }

  function ReadCopyStep(s: State, p: Pid, ch: Choice): State
    requires p in s.procs
  {
    var r := s.ring;
    if ch.faults || !Wf(r) then Move(s, p, In(Up(Rest)))
    else
      var k := ReadCount(r, CountOf(s.procs[p].op));
      Move(s, p, In(ReadWrap)).(ring := r.(rp := r.rp + k),
                            hist := s.hist.(delivered := s.hist.delivered + r.cells[r.rp..r.rp + k]))
  }

  function WriteCopyStep(s: State, p: Pid, ch: Choice): State
    requires p in s.procs
  {
    var r := s.ring;
    if !Wf(r) then Move(s, p, In(Up(Rest)))
    else
      var src := DataOf(s.procs[p].op);
      var k := WriteCount(r, |src|);
      if ch.faults then
        Move(s, p, In(Up(Rest))).(ring := Faulted(r, |src|, ch.junk))
      else
        Move(s, p, In(WriteWrap)).(ring := Ring(Overwrite(r.cells, r.wp, src[..k]), r.rp, r.wp + k),
                               hist := s.hist.(accepted := s.hist.accepted + src[..k]))
  }

  /** One step inside the critical section. */
  function Inner(s: State, p: Pid, c: Inside, ch: Choice): State
    requires p in s.procs
  {
    match c
    case Up(a) => Move(s, p, Past(a)).(sem := None)
    case Enter(OpenBody) => OpenStep(s, p, ch)
    case Enter(CloseBody) => CloseStep(s, p)
    case Enter(e) => s.(procs := s.procs[p := Test(s.procs[p], e, s.ring)])
    case ReadCopy => ReadCopyStep(s, p, ch)
    case WriteCopy => WriteCopyStep(s, p, ch)
    case ReadWrap => Move(s, p, In(Up(ReadWake))).(ring := s.ring.(rp := Wrap(s.ring.rp, |s.ring.cells|)))
    case WriteWrap => Move(s, p, In(Up(WriteWake))).(ring := s.ring.(wp := Wrap(s.ring.wp, |s.ring.cells|)))
  }

  /** One step of process `p` from where it stands. */
  function Advance(s: State, p: Pid, ch: Choice): State
    requires p in s.procs
  {
    match s.procs[p].pc
    case Down(e) => Move(s, p, In(Enter(e))).(sem := Some(p))
    case In(c) => Inner(s, p, c, ch)
    case Past(ReadWake) => s.(procs := WakeOut(s.procs)[p := RESTING])
    case Past(WriteWake) => s.(procs := WakeIn(s.procs)[p := RESTING])
    case Past(a) => s.(procs := s.procs[p := Look(s.procs[p], a, s.ring)])
    case Out(o) => s.(procs := s.procs[p := Wait(s.procs[p], o, s.ring)])
  }

  // ----- which steps a state allows

  predicate Uses(x: Proc, f: File) {
    !x.op.NoOp? && x.op.file == f
  }

  /** A call starts only on a file the process holds open in the right mode (an ioctl asks for
      none), an open makes a new file, and the last reference to a file goes only when no call is using it. */
  predicate MayBegin(s: State, op: Op) {
    match op
    case NoOp => false
    case Open(f, _) => f !in s.dev.files && forall q :: q in s.procs ==> !Uses(s.procs[q], f)
    case Close(f) => f in s.dev.files && forall q :: q in s.procs ==> !Uses(s.procs[q], f)
    case Read(f, _, _) => f in s.dev.files && s.dev.files[f].read && Shared(s, f)
    case Write(f, _, _) => f in s.dev.files && s.dev.files[f].write && Shared(s, f)
    case Ioctl(f, _, _) => f in s.dev.files && Shared(s, f)
    case Poll(f, _, _) => f in s.dev.files && Shared(s, f)
  }

  predicate Shared(s: State, f: File) {
    forall q :: q in s.procs && Uses(s.procs[q], f) ==> !s.procs[q].op.Open? && !s.procs[q].op.Close?
  }

  /** The process stands where such a step can be taken. */
  predicate CanMove(s: State, step: Step) {
    && step.p in s.procs
    && var x := s.procs[step.p];
       match step
       case Begin(_, _) => x.pc == Past(Rest)
       case Interrupt(_) => Interruptible(x.pc)
       case Run(_, _) => x.pc != Past(Rest) && (x.pc.Down? ==> s.sem.None?) && (Asleep(x.pc) ==> x.woken)
  }

  /** A step that either tunnel could take. */
  predicate Allowed(s: State, step: Step) {
    CanMove(s, step) && (step.Begin? ==> MayBegin(s, step.op))
  }

  /** A step of the sensor tunnel. */
  predicate Enabled(s: State, step: Step) {
    Allowed(s, step) && (step.Begin? ==> !step.op.Ioctl?)
  }

  function Do(s: State, step: Step): State
    requires step.p in s.procs
  {
    match step
    case Begin(p, op) => s.(procs := s.procs[p := Proc(Starts(op), op, false)])
    case Interrupt(p) => s.(procs := s.procs[p := RESTING])
    case Run(p, ch) => Advance(s, p, ch)
  }

  ghost predicate Init(s: State) {
    && 0 < |s.ring.cells| && s.ring.rp == s.ring.wp == 0
    && s.sem == None
    && s.dev == Device(map[], 0, 0, false)
    && s.hist == History([], [])
    && forall p :: p in s.procs ==> s.procs[p] == RESTING
  }

  /** A run: `steps`, each enabled when it is taken, lead from `s` to `t`. */
  ghost predicate Leads(s: State, steps: seq<Step>, t: State)
    decreases |steps|
  {
    if steps == [] then s == t
    else Enabled(s, steps[0]) && Leads(Do(s, steps[0]), steps[1..], t)
  }

  lemma {:induction false} LeadsOn(s: State, steps: seq<Step>, t: State, step: Step)
    requires Leads(s, steps, t) && Enabled(t, step)
    ensures Leads(s, steps + [step], Do(t, step))
    decreases |steps|
  {
    if steps == [] {
      assert steps + [step] == [step];
      assert Leads(Do(t, step), [], Do(t, step));
    } else {
      assert (steps + [step])[1..] == steps[1..] + [step];
      LeadsOn(Do(s, steps[0]), steps[1..], t, step);
    }
  }
}
