/** Sleeping and waking in the sensor tunnel: which wake-ups can be lost, and when. */
module SensorSleep {
  import opened Rings
  import opened SensorProtocol
  import opened SensorProofs

  /** In poll and past its look at the ring, which showed nothing of what it wants. */
  ghost predicate PollWaits(pc: PC) {
    pc == In(Up(PollAsleep)) || pc == Past(PollAsleep)
  }

  /** Committed to sleep until bytes arrive: no wake-up has reached it since it registered. */
  ghost predicate WaitsIn(x: Proc) {
    && !x.woken
    && (x.pc == Out(ReadAsleep) || (PollWaits(x.pc) && x.op.Poll? && x.op.wantIn))
  }

  /** Committed to sleep until space appears. */
  ghost predicate WaitsOut(x: Proc) {
    && !x.woken
    && (x.pc == Out(WriteAsleep) || (PollWaits(x.pc) && x.op.Poll? && x.op.wantOut))
  }

  /** A writer between its pointer advance and its wake-up. */
  ghost predicate WriterPending(pc: PC) {
    pc == In(WriteWrap) || pc == In(Up(WriteWake)) || pc == Past(WriteWake)
  }

  /** A reader between its pointer advance and its wake-up. */
  ghost predicate ReaderPending(pc: PC) {
    pc == In(ReadWrap) || pc == In(Up(ReadWake)) || pc == Past(ReadWake)
  }

  ghost predicate SomeWriter(procs: Procs) {
    exists q :: q in procs && WriterPending(procs[q].pc)
  }

  ghost predicate SomeReader(procs: Procs) {
    exists q :: q in procs && ReaderPending(procs[q].pc)
  }

  /** No wake-up for bytes is lost: whoever waits for them faces an empty ring or a wake on its way. */
  ghost predicate SleepIn(procs: Procs, r: Ring) {
    forall p :: p in procs && WaitsIn(procs[p]) ==> r.rp == r.wp || SomeWriter(procs)
  }

  /** No wake-up for space is lost. */
  ghost predicate SleepOut(procs: Procs, r: Ring) {
    forall p :: p in procs && WaitsOut(procs[p]) ==> Space(r) == 0 || SomeReader(procs)
  }

  // ----- waiting for bytes

  ghost predicate MoveIn(a: Procs, b: Procs, p: Pid, r: Ring, r': Ring)
    requires p in a && p in b
  {
    && (WaitsIn(b[p]) ==> WaitsIn(a[p]) || r'.rp == r'.wp)
    && (r.rp == r.wp ==> r'.rp == r'.wp || WriterPending(b[p].pc))
    && (WriterPending(a[p].pc) && !WriterPending(b[p].pc) ==>
          forall q :: q in b && q != p && OnInq(b[q].pc) ==> b[q].woken)
  }

  lemma StepMovesIn(s: State, step: Step)
    requires CanMove(s, step) && (s.procs[step.p].pc.In? ==> RingOk(s.ring, s.procs[step.p].pc))
    ensures var t := Do(s, step);
      step.p in t.procs && MoveIn(s.procs, t.procs, step.p, s.ring, t.ring)
  {
    if step.Run? && s.procs[step.p].pc.In? {
      InnerMovesIn(s, step.p, s.procs[step.p].pc.at, step.ch);
    }
  }

  lemma InnerMovesIn(s: State, p: Pid, c: Inside, ch: Choice)
    requires p in s.procs && s.procs[p].pc == In(c) && RingOk(s.ring, In(c))
    ensures var t := Inner(s, p, c, ch); p in t.procs && MoveIn(s.procs, t.procs, p, s.ring, t.ring)
  {
  }

  lemma SleepInKept(a: Procs, b: Procs, p: Pid, r: Ring, r': Ring)
    requires OthersStand(a, b, p) && MoveIn(a, b, p, r, r') && SleepIn(a, r)
    ensures SleepIn(b, r')
  {
    forall x | x in b && WaitsIn(b[x])
      ensures r'.rp == r'.wp || SomeWriter(b)
    {
      if !(r'.rp == r'.wp) && !WriterPending(b[p].pc) {
        assert WaitsIn(a[x]);
        var q :| q in a && WriterPending(a[q].pc);
        assert q != p;
        assert WriterPending(b[q].pc);
      }
    }
  }

  // ----- waiting for space

  ghost predicate MoveOut(a: Procs, b: Procs, p: Pid, r: Ring, r': Ring)
    requires p in a && p in b
  {
    && (WaitsOut(b[p]) ==> WaitsOut(a[p]) || Space(r') == 0)
    && (Space(r) == 0 ==> Space(r') == 0 || ReaderPending(b[p].pc))
    && (ReaderPending(a[p].pc) && !ReaderPending(b[p].pc) ==>
          forall q :: q in b && q != p && OnOutq(b[q].pc) ==> b[q].woken)
  }

  /** An open that is about to reset the pointers. */
  predicate Resets(s: State, step: Step) {
    && step.Run? && step.p in s.procs && s.procs[step.p].pc == In(Enter(OpenBody))
    && (s.dev.buffer || step.ch.allocates)
  }

  /** A full ring stays full when the write pointer wraps. */
  lemma WrapKeepsFull(r: Ring)
    requires RingOk(r, In(WriteWrap)) && Space(r) == 0
    ensures Space(r.(wp := Wrap(r.wp, |r.cells|))) == 0
  {
    if r.wp == |r.cells| {
      assert SpaceFree(|r.cells|, r.rp, |r.cells|) == r.rp % |r.cells| - 1 by {
        assert r.rp + |r.cells| - |r.cells| == r.rp;
      }
      WrapModulo(r.rp, |r.cells|);
      WrapModulo(r.rp + |r.cells|, |r.cells|);
    }
  }

  /** Nothing is written into a full ring. */
  lemma WriteKeepsFull(s: State, p: Pid, ch: Choice)
    requires p in s.procs && RingOk(s.ring, In(WriteCopy)) && Space(s.ring) == 0
    ensures Space(WriteCopyStep(s, p, ch).ring) == 0
  {
    SpaceIsRoom(s.ring);
  }

  lemma StepMovesOut(s: State, step: Step)
    requires CanMove(s, step) && (s.procs[step.p].pc.In? ==> RingOk(s.ring, s.procs[step.p].pc))
    requires !Resets(s, step)
    ensures var t := Do(s, step);
      step.p in t.procs && MoveOut(s.procs, t.procs, step.p, s.ring, t.ring)
  {
    if step.Run? && s.procs[step.p].pc.In? {
      InnerMovesOut(s, step.p, s.procs[step.p].pc.at, step.ch);
    }
  }

  lemma InnerMovesOut(s: State, p: Pid, c: Inside, ch: Choice)
    requires p in s.procs && s.procs[p].pc == In(c) && RingOk(s.ring, In(c)) && !Resets(s, Run(p, ch))
    ensures var t := Inner(s, p, c, ch); p in t.procs && MoveOut(s.procs, t.procs, p, s.ring, t.ring)
  {
    if Space(s.ring) == 0 {
      if c.WriteWrap? {
        WrapKeepsFull(s.ring);
      } else if c.WriteCopy? {
        WriteKeepsFull(s, p, ch);
      }
    }
  }

  lemma SleepOutKept(a: Procs, b: Procs, p: Pid, r: Ring, r': Ring)
    requires OthersStand(a, b, p) && MoveOut(a, b, p, r, r') && SleepOut(a, r)
    ensures SleepOut(b, r')
  {
    forall x | x in b && WaitsOut(b[x])
      ensures Space(r') == 0 || SomeReader(b)
    {
      if Space(r') != 0 && !ReaderPending(b[p].pc) {
        assert WaitsOut(a[x]);
        var q :| q in a && ReaderPending(a[q].pc);
        assert q != p;
        assert ReaderPending(b[q].pc);
      }
    }
  }

  /** No process waits for space, or a reader is about to wake it anyway. */
  ghost predicate NoneStranded(procs: Procs) {
    SomeReader(procs) || forall p :: p in procs ==> !WaitsOut(procs[p])
  }

  /** An open frees the whole ring and wakes nobody: it keeps the guarantee exactly when nobody
      is left waiting for space, or when the ring has one cell and so never has space. */
  lemma ResetStrands(s: State, step: Step)
    requires CanMove(s, step) && Resets(s, step) && 0 < |s.ring.cells|
    ensures var t := Do(s, step);
      SleepOut(t.procs, t.ring) <==> |s.ring.cells| == 1 || NoneStranded(s.procs)
  {
    var t := Do(s, step);
    StepKeepsOthers(s, step);
    var p := step.p;
    assert forall q :: q in s.procs && q != p ==> t.procs[q] == s.procs[q];
    assert Space(t.ring) == |s.ring.cells| - 1;
    assert SomeReader(t.procs) ==> SomeReader(s.procs) by {
      if SomeReader(t.procs) {
        var q :| q in t.procs && ReaderPending(t.procs[q].pc);
        assert ReaderPending(s.procs[q].pc);
      }
    }
    assert SomeReader(s.procs) ==> SomeReader(t.procs) by {
      if SomeReader(s.procs) {
        var q :| q in s.procs && ReaderPending(s.procs[q].pc);
        assert ReaderPending(t.procs[q].pc);
      }
    }
    forall q | q in s.procs ensures WaitsOut(s.procs[q]) <==> WaitsOut(t.procs[q]) {
    }
  }
}
