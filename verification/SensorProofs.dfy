/** What every interleaving of the sensor tunnel's calls keeps. */
module SensorProofs {
  import opened Bytes
  import opened Rings
  import opened SensorProtocol

  // ----- what one step can do to the processes

  /** Only `p` moves; the others can at most be woken. */
  ghost predicate OthersStand(a: Procs, b: Procs, p: Pid) {
    && p in a && a.Keys == b.Keys
    && forall q :: q in a && q != p ==>
         b[q].pc == a[q].pc && b[q].op == a[q].op && (a[q].woken ==> b[q].woken)
  }

  lemma StepKeepsOthers(s: State, step: Step)
    requires CanMove(s, step)
    ensures OthersStand(s.procs, Do(s, step).procs, step.p)
  {
  }

  // ----- mutual exclusion

  ghost predicate LockOk(procs: Procs, sem: Option<Pid>) {
    && (sem.Some? ==> sem.value in procs && procs[sem.value].pc.In?)
    && forall p :: p in procs && procs[p].pc.In? ==> sem == Some(p)
  }

  /** Where the holder of the semaphore stands; outside it there is no holder. */
  ghost function Holder(procs: Procs, sem: Option<Pid>): PC {
    if sem.Some? && sem.value in procs then procs[sem.value].pc else Past(Rest)
  }

  /** How a process may enter and leave the critical section. */
  ghost predicate LockMove(from: PC, to: PC, before: Option<Pid>, after: Option<Pid>, p: Pid) {
    if from.Down? && to.In? then before == None && after == Some(p)
    else if from.In? && !to.In? then after == None
    else after == before && (to.In? <==> from.In?)
  }

  lemma StepMovesLock(s: State, step: Step)
    requires CanMove(s, step)
    ensures var t := Do(s, step);
      step.p in t.procs && LockMove(s.procs[step.p].pc, t.procs[step.p].pc, s.sem, t.sem, step.p)
  {
  }

  lemma LockStep(a: Procs, b: Procs, before: Option<Pid>, after: Option<Pid>, p: Pid)
    requires LockOk(a, before) && OthersStand(a, b, p) && LockMove(a[p].pc, b[p].pc, before, after, p)
    ensures LockOk(b, after)
  {
  }

  /** No step of any process lets two into the critical section, or leaves it with the
      semaphore still down. */
  lemma StepKeepsLock(s: State, step: Step)
    requires LockOk(s.procs, s.sem) && CanMove(s, step)
    ensures LockOk(Do(s, step).procs, Do(s, step).sem)
  {
    StepKeepsOthers(s, step);
    StepMovesLock(s, step);
    LockStep(s.procs, Do(s, step).procs, s.sem, Do(s, step).sem, step.p);
  }

  // ----- the ring, given where the holder of the semaphore stands

  ghost predicate RingOk(r: Ring, h: PC) {
    && 0 < |r.cells| && r.rp <= |r.cells| && r.wp <= |r.cells|
    && (r.rp == |r.cells| ==> h == In(ReadWrap))
    && (r.wp == |r.cells| ==> h == In(WriteWrap))
    && (h == In(ReadCopy) ==> r.rp != r.wp)
  }

  /** Nobody goes on to copy into a full ring. */
  ghost predicate WriteGuard(r: Ring, h: PC) {
    h == In(WriteCopy) ==> Space(r) != 0
  }

  /** Since the last open: the bytes taken in are the bytes handed out followed by the ring. */
  ghost predicate QueueOk(r: Ring, hist: History) {
    && 0 < |r.cells| && r.rp <= |r.cells| && r.wp <= |r.cells|
    && hist.accepted == hist.delivered + Pending(Settled(r))
  }

  lemma ReadAdvances(r: Ring, hist: History, count: nat)
    requires Wf(r) && r.rp != r.wp && QueueOk(r, hist)
    ensures var k := ReadCount(r, count);
      QueueOk(r.(rp := r.rp + k), hist.(delivered := hist.delivered + r.cells[r.rp..r.rp + k]))
  {
    ReadTakesPrefix(r, count);
    TakesPrefix(r, hist, ReadCount(r, count));
  }

  lemma TakesPrefix(r: Ring, hist: History, k: nat)
    requires Wf(r) && QueueOk(r, hist) && r.rp + k <= |r.cells|
    requires Pending(r) == r.cells[r.rp..r.rp + k] + Pending(Consumed(r, k))
    ensures QueueOk(r.(rp := r.rp + k), hist.(delivered := hist.delivered + r.cells[r.rp..r.rp + k]))
  {
    assert Settled(r) == r;
    assert Settled(r.(rp := r.rp + k)) == Consumed(r, k);
  }

  lemma WriteAdvances(r: Ring, hist: History, src: seq<byte>)
    requires Wf(r) && QueueOk(r, hist)
    ensures var k := WriteCount(r, |src|);
      QueueOk(Ring(Overwrite(r.cells, r.wp, src[..k]), r.rp, r.wp + k), hist.(accepted := hist.accepted + src[..k]))
  {
    var k := WriteCount(r, |src|);
    WriteCountFacts(r, |src|);
    WriteAppends(r, src[..k]);
    Appends(r, hist, src[..k]);
  }

  lemma Appends(r: Ring, hist: History, data: seq<byte>)
    requires Wf(r) && QueueOk(r, hist) && r.wp + |data| <= |r.cells|
    requires Wf(Produced(r, data)) && Pending(Produced(r, data)) == Pending(r) + data
    ensures QueueOk(Ring(Overwrite(r.cells, r.wp, data), r.rp, r.wp + |data|),
                    hist.(accepted := hist.accepted + data))
  {
    var r' := Ring(Overwrite(r.cells, r.wp, data), r.rp, r.wp + |data|);
    assert Settled(r) == r && Settled(r') == Produced(r, data);
    assert hist.accepted + data == hist.delivered + (Pending(r) + data);
  }

  lemma WriteFaults(r: Ring, hist: History, count: nat, junk: seq<byte>)
    requires Wf(r) && QueueOk(r, hist) && |junk| <= WriteCount(r, count)
    ensures QueueOk(r.(cells := Overwrite(r.cells, r.wp, junk)), hist)
  {
    FaultedWriteKeepsQueue(r, count, junk);
    assert Settled(r) == r;
    var r' := r.(cells := Overwrite(r.cells, r.wp, junk));
    assert Settled(r') == r';
  }

  lemma ReadCopyKeeps(s: State, p: Pid, ch: Choice)
    requires p in s.procs && RingOk(s.ring, In(ReadCopy)) && QueueOk(s.ring, s.hist)
    ensures var t := ReadCopyStep(s, p, ch); RingOk(t.ring, t.procs[p].pc) && QueueOk(t.ring, t.hist)
  {
    hide Pending, Settled;
    ReadAdvances(s.ring, s.hist, CountOf(s.procs[p].op));
  }

  lemma WriteCopyKeeps(s: State, p: Pid, ch: Choice)
    requires p in s.procs && RingOk(s.ring, In(WriteCopy)) && QueueOk(s.ring, s.hist)
    ensures var t := WriteCopyStep(s, p, ch); RingOk(t.ring, t.procs[p].pc) && QueueOk(t.ring, t.hist)
  {
    hide Pending, Settled, WriteCount, Overwrite;
    var src := DataOf(s.procs[p].op);
    WriteAdvances(s.ring, s.hist, src);
    WriteFaults(s.ring, s.hist, |src|, ch.junk[..Min(WriteCount(s.ring, |src|), |ch.junk|)]);
  }

  /** Steps outside the five that write the pointers leave the ring alone and enter a copy
      only after the test that guards it. */
  ghost predicate RingUntouched(from: PC, to: PC, s: State, t: State) {
    && t.ring == s.ring && t.hist == s.hist
    && (to == In(ReadCopy) ==> s.ring.rp != s.ring.wp)
    && to != In(ReadWrap) && to != In(WriteWrap)
  }

  predicate TouchesRing(pc: PC) {
    pc.In? && (pc.at == Enter(OpenBody) || pc.at.ReadCopy? || pc.at.ReadWrap? || pc.at.WriteCopy? || pc.at.WriteWrap?)
  }

  lemma QuietStep(s: State, step: Step)
    requires CanMove(s, step) && !(step.Run? && TouchesRing(s.procs[step.p].pc))
    ensures var t := Do(s, step);
      step.p in t.procs && RingUntouched(s.procs[step.p].pc, t.procs[step.p].pc, s, t)
  {
  }

  lemma WrapKeeps(r: Ring, hist: History)
    requires QueueOk(r, hist)
    ensures QueueOk(r.(rp := Wrap(r.rp, |r.cells|)), hist)
    ensures QueueOk(r.(wp := Wrap(r.wp, |r.cells|)), hist)
  {
    assert Settled(r.(rp := Wrap(r.rp, |r.cells|))) == Settled(r) == Settled(r.(wp := Wrap(r.wp, |r.cells|)));
  }

  lemma TouchingStep(s: State, p: Pid, ch: Choice)
    requires p in s.procs && TouchesRing(s.procs[p].pc)
    requires RingOk(s.ring, s.procs[p].pc) && QueueOk(s.ring, s.hist)
    ensures var t := Advance(s, p, ch);
      p in t.procs && RingOk(t.ring, t.procs[p].pc) && QueueOk(t.ring, t.hist)
  {
    WrapKeeps(s.ring, s.hist);
    match s.procs[p].pc.at
    case ReadCopy => ReadCopyKeeps(s, p, ch);
    case WriteCopy => WriteCopyKeeps(s, p, ch);
    case _ =>
  }

  lemma RingStep(s: State, step: Step)
    requires LockOk(s.procs, s.sem) && RingOk(s.ring, Holder(s.procs, s.sem)) && QueueOk(s.ring, s.hist)
    requires CanMove(s, step)
    ensures var t := Do(s, step); RingOk(t.ring, Holder(t.procs, t.sem)) && QueueOk(t.ring, t.hist)
  {
    StepKeepsOthers(s, step);
    StepMovesLock(s, step);
    if step.Run? && TouchesRing(s.procs[step.p].pc) {
      TouchingStep(s, step.p, step.ch);
    } else {
      QuietStep(s, step);
    }
    HolderMoves(s.procs, Do(s, step).procs, s.sem, Do(s, step).sem, step.p);
  }

  /** The holder's point changes only by the holder's own step or by taking a free semaphore. */
  lemma HolderMoves(a: Procs, b: Procs, before: Option<Pid>, after: Option<Pid>, p: Pid)
    requires LockOk(a, before) && OthersStand(a, b, p) && LockMove(a[p].pc, b[p].pc, before, after, p)
    ensures a[p].pc.In? || b[p].pc.In? ==>
      Holder(b, after) == if b[p].pc.In? then b[p].pc else Past(Rest)
    ensures !a[p].pc.In? && !b[p].pc.In? ==> Holder(b, after) == Holder(a, before)
    ensures a[p].pc.In? ==> Holder(a, before) == a[p].pc
  {
    LockStep(a, b, before, after, p);
  }

  lemma GuardStep(s: State, step: Step)
    requires LockOk(s.procs, s.sem) && WriteGuard(s.ring, Holder(s.procs, s.sem)) && CanMove(s, step)
    ensures var t := Do(s, step); WriteGuard(t.ring, Holder(t.procs, t.sem))
  {
    var t := Do(s, step);
    StepKeepsOthers(s, step);
    StepMovesLock(s, step);
    HolderMoves(s.procs, t.procs, s.sem, t.sem, step.p);
    if !(step.Run? && TouchesRing(s.procs[step.p].pc)) {
      GuardedEntry(s, step);
      QuietStep(s, step);
    } else {
      TouchingLeaves(s, step.p, step.ch);
    }
  }

  lemma GuardedEntry(s: State, step: Step)
    requires CanMove(s, step) && !(step.Run? && TouchesRing(s.procs[step.p].pc))
    ensures var t := Do(s, step); step.p in t.procs && (t.procs[step.p].pc == In(WriteCopy) ==> Space(s.ring) != 0)
  {
  }

  lemma TouchingLeaves(s: State, p: Pid, ch: Choice)
    requires p in s.procs && TouchesRing(s.procs[p].pc)
    ensures var t := Advance(s, p, ch); p in t.procs && t.procs[p].pc != In(WriteCopy)
  {
  }
}
