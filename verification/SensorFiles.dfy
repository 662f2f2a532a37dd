/** Open files, open counts and the lifetime of the sensor tunnel's buffer. */
module SensorFiles {
  import opened SensorTunnels
  import opened SensorProtocol
  import opened SensorProofs

  type Files = map<File, Mode>

  function Readers(files: Files): set<File> {
    set f | f in files && files[f].read
  }

  function Writers(files: Files): set<File> {
    set f | f in files && files[f].write
  }

  /** The counts are those of the open files; a readable or writable open file has a buffer
      behind it, and a buffer is there only while some file is open. */
  ghost predicate DeviceOk(d: Device) {
    && d.nreaders == |Readers(d.files)|
    && d.nwriters == |Writers(d.files)|
    && (d.nreaders + d.nwriters > 0 ==> d.buffer)
    && (d.buffer ==> d.files != map[])
  }

  lemma OpenCounts(files: Files, f: File, m: Mode)
    requires f !in files
    ensures Readers(files[f := m]) == if m.read then Readers(files) + {f} else Readers(files)
    ensures Writers(files[f := m]) == if m.write then Writers(files) + {f} else Writers(files)
  {
  }

  lemma CloseCounts(files: Files, f: File)
    requires f in files
    ensures Readers(files - {f}) == if files[f].read then Readers(files) - {f} else Readers(files)
    ensures Writers(files - {f}) == if files[f].write then Writers(files) - {f} else Writers(files)
  {
  }

  lemma OpenKeepsDevice(d: Device, f: File, m: Mode)
    requires DeviceOk(d) && f !in d.files
    ensures DeviceOk(OpenDevice(d, f, m))
  {
    OpenCounts(d.files, f, m);
    assert f !in Readers(d.files) && f !in Writers(d.files);
    assert f in d.files[f := m];
  }

  /** A close that brings both counts to zero frees the buffer. */
  lemma CloseKeepsDevice(d: Device, f: File)
    requires DeviceOk(d) && f in d.files
    ensures var d' := CloseDevice(d, f);
      DeviceOk(d') && (d'.nreaders + d'.nwriters == 0 ==> !d'.buffer)
  {
    CloseCounts(d.files, f);
    var d' := CloseDevice(d, f);
    if d'.nreaders > 0 {
      var g :| g in Readers(d'.files);
      assert g in d'.files;
    } else if d'.nwriters > 0 {
      var g :| g in Writers(d'.files);
      assert g in d'.files;
    }
  }

  // ----- which file each call works on

  predicate Calls(e: Entry, op: Op) {
    match e
    case OpenBody => op.Open?
    case CloseBody => op.Close?
    case PollBody => op.Poll?
    case ReadTest => op.Read?
    case WriteTest => op.Write? || op.Ioctl?
  }

  predicate Leaves(a: After, op: Op) {
    match a
    case Rest => true
    case ReadNap => op.Read?
    case ReadWake => op.Read?
    case WriteNap => op.Write? || op.Ioctl?
    case WriteWake => op.Write? || op.Ioctl?
    case PollAsleep => op.Poll?
  }

  /** The point belongs to the call. */
  predicate Stage(pc: PC, op: Op) {
    match pc
    case Down(e) => Calls(e, op)
    case In(Enter(e)) => Calls(e, op)
    case In(ReadCopy) => op.Read?
    case In(ReadWrap) => op.Read?
    case In(WriteCopy) => op.Write? || op.Ioctl?
    case In(WriteWrap) => op.Write? || op.Ioctl?
    case In(Up(a)) => !op.NoOp? && Leaves(a, op)
    case Past(a) => Leaves(a, op) && (a.Rest? <==> op.NoOp?)
    case Out(o) => !Nonblock(op) && if o.WriteCheck? || o.WriteAsleep? then op.Write? || op.Ioctl? else op.Read?
  }

  /** The call's file is open, and in the right mode, wherever the call may still touch the device. */
  predicate Fits(pc: PC, op: Op, files: Files) {
    && Stage(pc, op)
    && match op
       case NoOp => true
       case Read(f, _, _) => f in files && files[f].read
       case Write(f, _, _) => f in files && files[f].write
       case Ioctl(f, _, _) => f in files
       case Poll(f, _, _) => f in files
       case Open(f, _) => pc == In(Up(Rest)) || f !in files
       case Close(f) => pc == In(Up(Rest)) || f in files
  }

  predicate Alone(op: Op) {
    op.Open? || op.Close?
  }

  /** Every process has the file it needs, and opens and closes share theirs with no other call. */
  ghost predicate UsersOk(procs: Procs, files: Files) {
    && (forall p :: p in procs ==> Fits(procs[p].pc, procs[p].op, files))
    && (forall p, q :: p in procs && q in procs && p != q && Alone(procs[p].op) ==>
          !Uses(procs[q], FileOf(procs[p].op)))
  }

  lemma MoverFits(s: State, step: Step)
    requires Allowed(s, step) && Fits(s.procs[step.p].pc, s.procs[step.p].op, s.dev.files)
    ensures var t := Do(s, step);
      && step.p in t.procs
      && Fits(t.procs[step.p].pc, t.procs[step.p].op, t.dev.files)
      && (step.Begin? || t.procs[step.p].op == s.procs[step.p].op || t.procs[step.p].op.NoOp?)
  {
    if step.Run? && s.procs[step.p].pc.In? {
      InnerFits(s, step.p, s.procs[step.p].pc.at, step.ch);
    }
  }

  lemma InnerFits(s: State, p: Pid, c: Inside, ch: Choice)
    requires p in s.procs && s.procs[p].pc == In(c) && Fits(In(c), s.procs[p].op, s.dev.files)
    ensures var t := Inner(s, p, c, ch);
      && p in t.procs
      && Fits(t.procs[p].pc, t.procs[p].op, t.dev.files)
      && (t.procs[p].op == s.procs[p].op || t.procs[p].op.NoOp?)
  {
    if c == Enter(OpenBody) || c == Enter(CloseBody) {
      FileStepFits(s, p, c, ch);
    } else {
      InnerKeepsFiles(s, p, c, ch);
    }
  }

  lemma FileStepFits(s: State, p: Pid, c: Inside, ch: Choice)
    requires p in s.procs && s.procs[p].pc == In(c) && Fits(In(c), s.procs[p].op, s.dev.files)
    requires c == Enter(OpenBody) || c == Enter(CloseBody)
    ensures var t := Inner(s, p, c, ch);
      p in t.procs && Fits(t.procs[p].pc, t.procs[p].op, t.dev.files) && t.procs[p].op == s.procs[p].op
  {
  }

  lemma InnerKeepsFiles(s: State, p: Pid, c: Inside, ch: Choice)
    requires p in s.procs && s.procs[p].pc == In(c) && Fits(In(c), s.procs[p].op, s.dev.files)
    requires c != Enter(OpenBody) && c != Enter(CloseBody)
    ensures var t := Inner(s, p, c, ch);
      && t.dev.files == s.dev.files && p in t.procs
      && Fits(t.procs[p].pc, t.procs[p].op, s.dev.files)
      && (t.procs[p].op == s.procs[p].op || t.procs[p].op.NoOp?)
  {
    hide Fits;
    InnerMoves(s, p, c, ch);
    StageFits(c, Inner(s, p, c, ch).procs[p].pc, s.procs[p].op, s.dev.files);
  }

  /** Where a step inside can lead, other than that of an open or a close. */
  predicate Follows(c: Inside, to: PC) {
    match c
    case Enter(ReadTest) => to == In(Up(ReadNap)) || to == In(ReadCopy)
    case Enter(WriteTest) => to == In(Up(WriteNap)) || to == In(WriteCopy)
    case Enter(_) => to == In(Up(Rest)) || to == In(Up(PollAsleep))
    case ReadCopy => to == In(Up(Rest)) || to == In(ReadWrap)
    case WriteCopy => to == In(Up(Rest)) || to == In(WriteWrap)
    case ReadWrap => to == In(Up(ReadWake))
    case WriteWrap => to == In(Up(WriteWake))
    case Up(a) => to == Past(a)
  }

  lemma InnerMoves(s: State, p: Pid, c: Inside, ch: Choice)
    requires p in s.procs && s.procs[p].pc == In(c) && c != Enter(OpenBody) && c != Enter(CloseBody)
    ensures var t := Inner(s, p, c, ch);
      && t.dev == s.dev && p in t.procs && Follows(c, t.procs[p].pc)
      && t.procs[p].op == if t.procs[p].pc == Past(Rest) then NoOp else s.procs[p].op
  {
  }

  lemma StageFits(c: Inside, to: PC, op: Op, files: Files)
    requires Fits(In(c), op, files) && Follows(c, to) && c != Enter(OpenBody) && c != Enter(CloseBody)
    ensures Fits(to, if to == Past(Rest) then NoOp else op, files)
  {
  }

  ghost predicate SameElsewhere(files: Files, files': Files, op: Op) {
    forall g :: !(Alone(op) && g == FileOf(op)) ==>
      (g in files <==> g in files') && (g in files && g in files' ==> files[g] == files'[g])
  }

  /** The set of open files changes only at the file of an open or a close. */
  lemma FilesChange(s: State, step: Step)
    requires Allowed(s, step) && Fits(s.procs[step.p].pc, s.procs[step.p].op, s.dev.files)
    ensures SameElsewhere(s.dev.files, Do(s, step).dev.files, s.procs[step.p].op)
  {
  }

  // ----- which files are open, told from the calls alone

  /** A successful open of `f` adds it in the mode asked for, a close of `f` takes it out. */
  function Tally(files: Files, s: State, step: Step): Files
    requires step.p in s.procs
  {
    var x := s.procs[step.p];
    if step.Run? && x.pc == In(Enter(OpenBody)) && x.op.Open? && (s.dev.buffer || step.ch.allocates) then
      files[x.op.file := x.op.mode]
    else if step.Run? && x.pc == In(Enter(CloseBody)) && x.op.Close? then files - {x.op.file}
    else files
  }

  lemma StepTallies(s: State, step: Step)
    requires CanMove(s, step) && Fits(s.procs[step.p].pc, s.procs[step.p].op, s.dev.files)
    ensures Do(s, step).dev.files == Tally(s.dev.files, s, step)
  {
  }

  lemma UsersStep(s: State, step: Step)
    requires Allowed(s, step) && UsersOk(s.procs, s.dev.files)
    ensures var t := Do(s, step); UsersOk(t.procs, t.dev.files)
  {
    StepKeepsOthers(s, step);
    MoverFits(s, step);
    FilesChange(s, step);
    var t := Do(s, step);
    UsersKept(s.procs, t.procs, step.p, s.dev.files, t.dev.files,
              if step.Begin? then step.op else t.procs[step.p].op);
  }

  lemma UsersKept(a: Procs, b: Procs, p: Pid, files: Files, files': Files, op: Op)
    requires UsersOk(a, files) && OthersStand(a, b, p) && b[p].op == op && Fits(b[p].pc, op, files')
    requires op == a[p].op || op.NoOp? ||
      (forall q :: q in a && q != p && Uses(a[q], FileOf(op)) ==> !Alone(op) && !Alone(a[q].op))
    requires SameElsewhere(files, files', a[p].op)
    ensures UsersOk(b, files')
  {
    forall q | q in b && q != p ensures Fits(b[q].pc, b[q].op, files') {
      assert Fits(a[q].pc, a[q].op, files);
      assert Alone(a[p].op) ==> !Uses(a[q], FileOf(a[p].op));
    }
  }

  lemma DeviceStep(s: State, step: Step)
    requires Allowed(s, step) && UsersOk(s.procs, s.dev.files) && DeviceOk(s.dev)
    ensures DeviceOk(Do(s, step).dev)
  {
    var x := s.procs[step.p];
    if x.pc == In(Enter(OpenBody)) && step.Run? {
      OpenKeepsDevice(s.dev, FileOf(x.op), ModeOf(x.op));
    } else if x.pc == In(Enter(CloseBody)) && step.Run? {
      CloseKeepsDevice(s.dev, FileOf(x.op));
    }
  }
}
