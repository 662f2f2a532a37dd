/** What each call of the sensor tunnel does when nothing interferes: whatever the other processes
    are doing outside the semaphore, the steps of one call alone add up to the operation that the
    tunnel's methods are specified by. */
module SensorCalls {
  import opened Bytes
  import opened Rings
  import opened SensorTunnels
  import opened SensorProtocol

  /** `p` rests and the semaphore is free. */
  ghost predicate Quiet(s: State, p: Pid) {
    p in s.procs && s.procs[p] == RESTING && s.sem == None && Wf(s.ring)
  }

  /** `steps` are the beginning of the call `op` and steps of `p` that no signal interrupts. */
  ghost predicate Calls(s: State, p: Pid, op: Op, steps: seq<Step>, t: State) {
    && |steps| > 0 && steps[0] == Begin(p, op)
    && (forall i :: 1 <= i < |steps| ==> steps[i].Run? && steps[i].p == p)
    && Leads(s, steps, t)
  }

  /** The call `op`, made by `p` alone, gets from `s` to `t`. */
  ghost predicate Gets(s: State, p: Pid, op: Op, t: State) {
    exists steps :: Calls(s, p, op, steps, t)
  }

  function With(s: State, p: Pid, x: Proc, sem: Option<Pid>, r: Ring, d: Device, h: History): State {
    State(s.procs[p := x], sem, r, d, h)
  }

  function On(op: Op, pc: PC): Proc {
    Proc(pc, op, false)
  }

  const GO := Choice(false, true, [])

  lemma Runs(s: State, p: Pid, op: Op, t: State, ch: Choice, u: State)
    requires Gets(s, p, op, t) && Enabled(t, Run(p, ch)) && Do(t, Run(p, ch)) == u
    ensures Gets(s, p, op, u)
  {
    hide Enabled, Do;
    var steps :| Calls(s, p, op, steps, t);
    LeadsOn(s, steps, t, Run(p, ch));
    assert Calls(s, p, op, steps + [Run(p, ch)], u);
  }

  // ----- the steps that every call takes

  lemma Starts(s: State, p: Pid, op: Op)
    requires Quiet(s, p) && MayBegin(s, op) && !op.Ioctl?
    ensures Gets(s, p, op, With(s, p, On(op, SensorProtocol.Starts(op)), None, s.ring, s.dev, s.hist))
  {
    hide MayBegin;
    var t, steps := Do(s, Begin(p, op)), [Begin(p, op)];
    assert steps[1..] == [] && Leads(t, [], t);
    assert Calls(s, p, op, steps, t);
  }

  lemma Acquires(s: State, p: Pid, op: Op, e: Entry, r: Ring, d: Device, h: History)
    requires Gets(s, p, op, With(s, p, On(op, Down(e)), None, r, d, h))
    ensures Gets(s, p, op, With(s, p, On(op, In(Enter(e))), Some(p), r, d, h))
  {
    hide Gets;
    Runs(s, p, op, With(s, p, On(op, Down(e)), None, r, d, h), GO,
         With(s, p, On(op, In(Enter(e))), Some(p), r, d, h));
  }

  lemma Releases(s: State, p: Pid, op: Op, a: After, r: Ring, d: Device, h: History)
    requires Gets(s, p, op, With(s, p, On(op, In(Up(a))), Some(p), r, d, h))
    ensures Gets(s, p, op, With(s, p, if a == Rest then RESTING else On(op, Past(a)), None, r, d, h))
  {
    hide Gets;
    Runs(s, p, op, With(s, p, On(op, In(Up(a))), Some(p), r, d, h), GO,
         With(s, p, if a == Rest then RESTING else On(op, Past(a)), None, r, d, h));
  }

  /** Back at rest, with nothing else changed among the processes. */
  lemma Returns(s: State, p: Pid, r: Ring, d: Device, h: History)
    requires Quiet(s, p)
    ensures With(s, p, RESTING, None, r, d, h) == State(s.procs, None, r, d, h)
    ensures State(s.procs, None, s.ring, s.dev, s.hist) == s
  {
  }

  /** The last two steps of a transfer: up, and the wake-up of the other side. */
  lemma WakesReaders(s: State, p: Pid, op: Op, r: Ring, d: Device, h: History)
    requires Quiet(s, p) && Gets(s, p, op, With(s, p, On(op, In(Up(WriteWake))), Some(p), r, d, h))
    ensures Gets(s, p, op, State(WakeIn(s.procs), None, r, d, h))
  {
    hide Gets;
    Releases(s, p, op, WriteWake, r, d, h);
    var t := With(s, p, On(op, Past(WriteWake)), None, r, d, h);
    assert WakeIn(t.procs)[p := RESTING] == WakeIn(s.procs);
    Runs(s, p, op, t, GO, State(WakeIn(s.procs), None, r, d, h));
  }

  lemma WakesWriters(s: State, p: Pid, op: Op, r: Ring, d: Device, h: History)
    requires Quiet(s, p) && Gets(s, p, op, With(s, p, On(op, In(Up(ReadWake))), Some(p), r, d, h))
    ensures Gets(s, p, op, State(WakeOut(s.procs), None, r, d, h))
  {
    hide Gets;
    Releases(s, p, op, ReadWake, r, d, h);
    var t := With(s, p, On(op, Past(ReadWake)), None, r, d, h);
    assert WakeOut(t.procs)[p := RESTING] == WakeOut(s.procs);
    Runs(s, p, op, t, GO, State(WakeOut(s.procs), None, r, d, h));
  }

  /** No open or close of the file is under way. */
  ghost predicate Usable(s: State, f: File) {
    f in s.dev.files && forall q :: q in s.procs && Uses(s.procs[q], f) ==>
      !s.procs[q].op.Open? && !s.procs[q].op.Close?
  }

  ghost predicate Unused(s: State, f: File) {
    forall q :: q in s.procs ==> !Uses(s.procs[q], f)
  }

  // ----- open and close

  lemma Enters(s: State, p: Pid, op: Op, e: Entry)
    requires Quiet(s, p) && MayBegin(s, op) && !op.Ioctl? && SensorProtocol.Starts(op) == Down(e)
    ensures Gets(s, p, op, With(s, p, On(op, In(Enter(e))), Some(p), s.ring, s.dev, s.hist))
  {
    hide Gets, MayBegin;
    Starts(s, p, op);
    Acquires(s, p, op, e, s.ring, s.dev, s.hist);
  }

  /** An open of a new file: the buffer, a fresh one unless there was one, is emptied, and the file
      is there in the mode asked for and counted; a refused allocation changes nothing. */
  lemma OpenCall(s: State, p: Pid, f: File, m: Mode, allocates: bool, block: seq<byte>)
    requires Quiet(s, p) && f !in s.dev.files && Unused(s, f) && |block| == |s.ring.cells|
    ensures Gets(s, p, Open(f, m),
      if !s.dev.buffer && !allocates then s
      else State(s.procs, None, Ring(if s.dev.buffer then s.ring.cells else block, 0, 0),
                 Device(s.dev.files[f := m], s.dev.nreaders + (if m.read then 1 else 0),
                        s.dev.nwriters + (if m.write then 1 else 0), true),
                 History([], [])))
  {
    hide Gets, Quiet;
    var op, ch := Open(f, m), Choice(false, allocates, block);
    Enters(s, p, op, OpenBody);
    var t := With(s, p, On(op, In(Enter(OpenBody))), Some(p), s.ring, s.dev, s.hist);
    var u := Do(t, Run(p, ch));
    assert u == With(s, p, On(op, In(Up(Rest))), Some(p), u.ring, u.dev, u.hist);
    Runs(s, p, op, t, ch, u);
    Releases(s, p, op, Rest, u.ring, u.dev, u.hist);
    Returns(s, p, u.ring, u.dev, u.hist);
  }

  /** A close takes the file and its counts away, and the buffer with the last count. */
  lemma CloseCall(s: State, p: Pid, f: File)
    requires Quiet(s, p) && f in s.dev.files && Unused(s, f)
    ensures var m := s.dev.files[f];
      var nr, nw := s.dev.nreaders - (if m.read then 1 else 0), s.dev.nwriters - (if m.write then 1 else 0);
      Gets(s, p, Close(f), State(s.procs, None, s.ring,
        Device(s.dev.files - {f}, nr, nw, if nr + nw == 0 then false else s.dev.buffer), s.hist))
  {
    hide Gets, Quiet;
    var op := Close(f);
    Enters(s, p, op, CloseBody);
    var t := With(s, p, On(op, In(Enter(CloseBody))), Some(p), s.ring, s.dev, s.hist);
    var u := Do(t, Run(p, GO));
    assert u == With(s, p, On(op, In(Up(Rest))), Some(p), u.ring, u.dev, u.hist);
    Runs(s, p, op, t, GO, u);
    Releases(s, p, op, Rest, u.ring, u.dev, u.hist);
    Returns(s, p, u.ring, u.dev, u.hist);
  }

  // ----- read

  lemma ReachesReadCopy(s: State, p: Pid, op: Op)
    requires Quiet(s, p) && op.Read? && Usable(s, op.file) && s.dev.files[op.file].read && s.ring.rp != s.ring.wp
    ensures Gets(s, p, op, With(s, p, On(op, In(ReadCopy)), Some(p), s.ring, s.dev, s.hist))
  {
    hide Gets, Usable;
    BeginsRead(s, p, op);
    Enters(s, p, op, ReadTest);
    Runs(s, p, op, With(s, p, On(op, In(Enter(ReadTest))), Some(p), s.ring, s.dev, s.hist), GO,
         With(s, p, On(op, In(ReadCopy)), Some(p), s.ring, s.dev, s.hist));
  }

  /** A read of a non-empty ring hands out its `ReadCount` oldest bytes and wakes the writers; one
      whose copy faults changes nothing. */
  lemma ReadCall(s: State, p: Pid, f: File, count: nat, nonblock: bool, faults: bool)
    requires Quiet(s, p) && Usable(s, f) && s.dev.files[f].read && s.ring.rp != s.ring.wp
    ensures var r := s.ring; var k := ReadCount(r, count);
      Gets(s, p, Read(f, count, nonblock),
        if faults then s
        else State(WakeOut(s.procs), None, Consumed(r, k), s.dev,
                   s.hist.(delivered := s.hist.delivered + r.cells[r.rp..r.rp + k])))
  {
    hide Gets, ReadCount, Usable;
    var op, ch := Read(f, count, nonblock), Choice(faults, true, []);
    var r, k := s.ring, ReadCount(s.ring, count);
    var h := s.hist.(delivered := s.hist.delivered + r.cells[r.rp..r.rp + k]);
    ReachesReadCopy(s, p, op);
    var t := With(s, p, On(op, In(ReadCopy)), Some(p), r, s.dev, s.hist);
    if faults {
      Runs(s, p, op, t, ch, With(s, p, On(op, In(Up(Rest))), Some(p), r, s.dev, s.hist));
      Releases(s, p, op, Rest, r, s.dev, s.hist);
      Returns(s, p, r, s.dev, s.hist);
    } else {
      var u := With(s, p, On(op, In(ReadWrap)), Some(p), r.(rp := r.rp + k), s.dev, h);
      Runs(s, p, op, t, ch, u);
      Runs(s, p, op, u, GO, With(s, p, On(op, In(Up(ReadWake))), Some(p), Consumed(r, k), s.dev, h));
      WakesWriters(s, p, op, Consumed(r, k), s.dev, h);
    }
  }

  lemma BeginsRead(s: State, p: Pid, op: Op)
    requires op.Read? && Usable(s, op.file) && s.dev.files[op.file].read
    ensures MayBegin(s, op)
  {
  }

  /** A read of an empty ring returns at once or goes to sleep, with nothing changed but that. */
  lemma EmptyReadCall(s: State, p: Pid, f: File, count: nat, nonblock: bool)
    requires Quiet(s, p) && Usable(s, f) && s.dev.files[f].read && s.ring.rp == s.ring.wp
    ensures var op := Read(f, count, nonblock);
      Gets(s, p, op, if nonblock then s else s.(procs := s.procs[p := On(op, Out(ReadAsleep))]))
  {
    hide Gets, Usable;
    var op, r, d, h := Read(f, count, nonblock), s.ring, s.dev, s.hist;
    BeginsRead(s, p, op);
    Enters(s, p, op, ReadTest);
    Runs(s, p, op, With(s, p, On(op, In(Enter(ReadTest))), Some(p), r, d, h), GO,
         With(s, p, On(op, In(Up(ReadNap))), Some(p), r, d, h));
    Releases(s, p, op, ReadNap, r, d, h);
    var nap := With(s, p, On(op, Past(ReadNap)), None, r, d, h);
    if nonblock {
      Runs(s, p, op, nap, GO, With(s, p, RESTING, None, r, d, h));
      Returns(s, p, r, d, h);
    } else {
      Runs(s, p, op, nap, GO, With(s, p, On(op, Out(ReadQueue)), None, r, d, h));
      FallsAsleep(s, p, op, ReadQueue, ReadCheck, r, d, h);
      FallsAsleep(s, p, op, ReadCheck, ReadAsleep, r, d, h);
    }
  }

  lemma FallsAsleep(s: State, p: Pid, op: Op, from: Loop, to: Loop, r: Ring, d: Device, h: History)
    requires Gets(s, p, op, With(s, p, On(op, Out(from)), None, r, d, h))
    requires (from == ReadQueue && to == ReadCheck) || (from == ReadCheck && to == ReadAsleep && r.rp == r.wp)
      || (from == WriteCheck && to == WriteAsleep && Space(r) == 0)
    ensures Gets(s, p, op, With(s, p, On(op, Out(to)), None, r, d, h))
  {
    hide Gets, Space;
    Runs(s, p, op, With(s, p, On(op, Out(from)), None, r, d, h), GO, With(s, p, On(op, Out(to)), None, r, d, h));
  }

  // ----- write

  lemma BeginsWrite(s: State, p: Pid, op: Op)
    requires op.Write? && Usable(s, op.file) && s.dev.files[op.file].write
    ensures MayBegin(s, op)
  {
  }

  lemma ReachesWriteCopy(s: State, p: Pid, op: Op)
    requires Quiet(s, p) && op.Write? && Usable(s, op.file) && s.dev.files[op.file].write && Room(s.ring) > 0
    ensures Gets(s, p, op, With(s, p, On(op, In(WriteCopy)), Some(p), s.ring, s.dev, s.hist))
  {
    hide Gets, Usable, Room, SpaceFree;
    BeginsWrite(s, p, op);
    Enters(s, p, op, WriteTest);
    SpaceIsRoom(s.ring);
    Runs(s, p, op, With(s, p, On(op, In(Enter(WriteTest))), Some(p), s.ring, s.dev, s.hist), GO,
         With(s, p, On(op, In(WriteCopy)), Some(p), s.ring, s.dev, s.hist));
  }

  /** A write with room takes the first `WriteCount` of the caller's bytes and wakes the readers;
      one whose copy faults leaves the queue, and some of its cells as the copy left them. */
  lemma WriteCall(s: State, p: Pid, f: File, data: seq<byte>, nonblock: bool, faults: bool, junk: seq<byte>)
    requires Quiet(s, p) && Usable(s, f) && s.dev.files[f].write && Room(s.ring) > 0
    ensures var r := s.ring; var k := WriteCount(r, |data|);
      Gets(s, p, Write(f, data, nonblock),
        if faults then s.(ring := Faulted(r, |data|, junk))
        else State(WakeIn(s.procs), None, Produced(r, data[..k]), s.dev,
                   s.hist.(accepted := s.hist.accepted + data[..k])))
  {
    hide Gets, WriteCount, Usable, Room, Faulted, Overwrite, SpaceFree;
    var op, ch := Write(f, data, nonblock), Choice(faults, true, junk);
    var r, k := s.ring, WriteCount(s.ring, |data|);
    var h := s.hist.(accepted := s.hist.accepted + data[..k]);
    ReachesWriteCopy(s, p, op);
    var t := With(s, p, On(op, In(WriteCopy)), Some(p), r, s.dev, s.hist);
    if faults {
      var r' := Faulted(r, |data|, junk);
      Runs(s, p, op, t, ch, With(s, p, On(op, In(Up(Rest))), Some(p), r', s.dev, s.hist));
      Releases(s, p, op, Rest, r', s.dev, s.hist);
      Returns(s, p, r', s.dev, s.hist);
    } else {
      var u := With(s, p, On(op, In(WriteWrap)), Some(p),
                    Ring(Overwrite(r.cells, r.wp, data[..k]), r.rp, r.wp + k), s.dev, h);
      Runs(s, p, op, t, ch, u);
      Runs(s, p, op, u, GO, With(s, p, On(op, In(Up(WriteWake))), Some(p), Produced(r, data[..k]), s.dev, h));
      WakesReaders(s, p, op, Produced(r, data[..k]), s.dev, h);
    }
  }

  /** A write into a full ring returns at once or goes to sleep, with nothing changed but that. */
  lemma FullWriteCall(s: State, p: Pid, f: File, data: seq<byte>, nonblock: bool)
    requires Quiet(s, p) && Usable(s, f) && s.dev.files[f].write && Room(s.ring) == 0
    ensures var op := Write(f, data, nonblock);
      Gets(s, p, op, if nonblock then s else s.(procs := s.procs[p := On(op, Out(WriteAsleep))]))
  {
    hide Gets, Usable, Room;
    var op, r, d, h := Write(f, data, nonblock), s.ring, s.dev, s.hist;
    SpaceIsRoom(r);
    BeginsWrite(s, p, op);
    Enters(s, p, op, WriteTest);
    Runs(s, p, op, With(s, p, On(op, In(Enter(WriteTest))), Some(p), r, d, h), GO,
         With(s, p, On(op, In(Up(WriteNap))), Some(p), r, d, h));
    Releases(s, p, op, WriteNap, r, d, h);
    var nap := With(s, p, On(op, Past(WriteNap)), None, r, d, h);
    if nonblock {
      Runs(s, p, op, nap, GO, With(s, p, RESTING, None, r, d, h));
      Returns(s, p, r, d, h);
    } else {
      Runs(s, p, op, nap, GO, With(s, p, On(op, Out(WriteCheck)), None, r, d, h));
      FallsAsleep(s, p, op, WriteCheck, WriteAsleep, r, d, h);
    }
  }

  // ----- poll

  /** A poll returns at once if a byte, or a free cell, that it asks about is there; else it sleeps. */
  lemma PollCall(s: State, p: Pid, f: File, wantIn: bool, wantOut: bool)
    requires Quiet(s, p) && Usable(s, f)
    ensures var op := Poll(f, wantIn, wantOut);
      Gets(s, p, op,
        if (wantIn && s.ring.rp != s.ring.wp) || (wantOut && Room(s.ring) > 0) then s
        else s.(procs := s.procs[p := On(op, Past(PollAsleep))]))
  {
    hide Gets, Room;
    var op, r, d, h := Poll(f, wantIn, wantOut), s.ring, s.dev, s.hist;
    SpaceIsRoom(r);
    Enters(s, p, op, PollBody);
    var a := if (wantIn && r.rp != r.wp) || (wantOut && Room(r) > 0) then Rest else PollAsleep;
    Runs(s, p, op, With(s, p, On(op, In(Enter(PollBody))), Some(p), r, d, h), GO,
         With(s, p, On(op, In(Up(a))), Some(p), r, d, h));
    Releases(s, p, op, a, r, d, h);
    Returns(s, p, r, d, h);
  }

  // ----- after a wake-up

  /** Whoever is woken, or finds the ring changed before it falls asleep, tries again. */
  lemma TriesAgain(s: State, p: Pid, ch: Choice)
    requires p in s.procs
    ensures var x := s.procs[p]; var y := Do(s, Run(p, ch)).procs[p];
      && (x.pc == Out(ReadAsleep) ==> y.pc == Out(ReadQueue))
      && (x.pc == Out(ReadQueue) ==> y.pc == Out(ReadCheck) && !y.woken)
      && (x.pc == Out(ReadCheck) && s.ring.rp != s.ring.wp ==> y.pc == Down(ReadTest))
      && (x.pc == Past(ReadNap) && !Nonblock(x.op) && s.ring.rp != s.ring.wp ==> y.pc == Down(ReadTest))
      && (x.pc == Out(WriteAsleep) ==> y.pc == Down(WriteTest))
      && (x.pc == Out(WriteCheck) && Space(s.ring) != 0 ==> y.pc == Down(WriteTest))
      && (x.pc == Past(PollAsleep) ==> y.pc == Down(PollBody))
      && (x.pc.Out? || x.pc == Past(PollAsleep) ==> y.op == x.op && Do(s, Run(p, ch)) == s.(procs := s.procs[p := y]))
  {
  }
}
