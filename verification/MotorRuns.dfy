/** The motor tunnel over whole runs: what its readers receive, and when it seizes up. */
module MotorRuns {
  import opened Bytes
  import opened Rings
  import opened MotorTunnels

  datatype Event = Open | Ioctl(command: nat, nonblock: bool) | Read(count: nat)

  /** The tunnel together with what happened since the last open: the commands accepted, the
      five bytes each of them queued, and the bytes handed out. */
  datatype Tape = Tape(m: Motor, commands: seq<nat>, frames: seq<seq<byte>>, delivered: seq<byte>)

  function Next(t: Tape, e: Event): (t': Tape)
    requires Wf(t.m.ring)
    ensures Wf(t'.m.ring) && |t'.m.ring.cells| == |t.m.ring.cells|
  {
    match e
    case Open =>
      if t.m.held then t else Tape(Motor(Ring(t.m.ring.cells, 0, 0), false), [], [], [])
    case Ioctl(command, nonblock) =>
      var m' := AfterIoctl(t.m, command, nonblock);
      if IoctlOutcome(t.m, nonblock) == Accepted
      then Tape(m', t.commands + [command], t.frames + [Queued(t.m.ring, command)], t.delivered)
      else t.(m := m')
    case Read(count) =>
      var r := t.m.ring;
      var k := ReadLength(t.m, count);
      t.(m := t.m.(ring := Consumed(r, k)), delivered := t.delivered + r.cells[r.rp..r.rp + k])
  }

  function Play(t: Tape, events: seq<Event>): (t': Tape)
    requires Wf(t.m.ring)
    ensures Wf(t'.m.ring) && |t'.m.ring.cells| == |t.m.ring.cells|
    decreases |events|
  {
    if events == [] then t else Play(Next(t, events[0]), events[1..])
  }

  /** The tunnel just opened, over whatever its block holds. */
  ghost predicate Opened(t: Tape) {
    && 0 < |t.m.ring.cells| && t.m.ring.rp == t.m.ring.wp == 0
    && t.commands == [] && t.frames == [] && t.delivered == []
  }

  function Flat(frames: seq<seq<byte>>): seq<byte> {
    if frames == [] then [] else Flat(frames[..|frames| - 1]) + frames[|frames| - 1]
  }

  lemma FlatAppend(frames: seq<seq<byte>>, f: seq<byte>)
    ensures Flat(frames + [f]) == Flat(frames) + f
  {
    assert (frames + [f])[..|frames|] == frames;
  }

  ghost predicate AllFrames(frames: seq<seq<byte>>) {
    forall i :: 0 <= i < |frames| ==> |frames[i]| == CMD_STR_LEN
  }

  /** The `i`-th frame sits at byte `5 * i`. */
  lemma {:induction false} FlatAt(frames: seq<seq<byte>>, i: nat)
    requires AllFrames(frames)
    ensures |Flat(frames)| == 5 * |frames|
    ensures i < |frames| ==> Flat(frames)[5 * i..5 * i + 5] == frames[i]
    decreases |frames|
  {
    if frames == [] {
    } else {
      var front, last := frames[..|frames| - 1], frames[|frames| - 1];
      FlatAt(front, i);
      assert Flat(frames) == Flat(front) + last;
      if i < |front| {
        SliceOfFront(Flat(front), last, 5 * i, 5 * i + 5);
      }
    }
  }

  lemma SliceOfFront(front: seq<byte>, back: seq<byte>, lo: nat, hi: nat)
    requires lo <= hi <= |front|
    ensures (front + back)[lo..hi] == front[lo..hi]
  {
  }

  // ----- every run, whatever the size, the commands and the reads

  /** The frames queued since the open, end to end, are the bytes delivered and then the ring. */
  ghost predicate BytesLaw(r: Ring, frames: seq<seq<byte>>, delivered: seq<byte>) {
    Wf(r) && Flat(frames) == delivered + Pending(r)
  }

  /** Each accepted command queued five bytes, and a recognised one its own frame. */
  ghost predicate FramesLaw(commands: seq<nat>, frames: seq<seq<byte>>) {
    && |commands| == |frames| && AllFrames(frames)
    && forall i :: 0 <= i < |frames| && FrameOf(commands[i]).Some? ==> frames[i] == FrameOf(commands[i]).value
  }

  ghost predicate QueueLaw(t: Tape) {
    BytesLaw(t.m.ring, t.frames, t.delivered) && FramesLaw(t.commands, t.frames)
  }

  lemma QueueFrame(r: Ring, frames: seq<seq<byte>>, delivered: seq<byte>, f: seq<byte>)
    requires BytesLaw(r, frames, delivered) && |f| == WriteCount(r, |f|)
    ensures BytesLaw(Produced(r, f), frames + [f], delivered)
  {
    hide Pending, WriteCount, Flat, Produced;
    WriteAppends(r, f);
    FlatAppend(frames, f);
    assert (delivered + Pending(r)) + f == delivered + (Pending(r) + f);
  }

  lemma HandOut(r: Ring, frames: seq<seq<byte>>, delivered: seq<byte>, k: nat)
    requires BytesLaw(r, frames, delivered) && r.rp + k <= |r.cells|
    requires Wf(Consumed(r, k)) && Pending(r) == r.cells[r.rp..r.rp + k] + Pending(Consumed(r, k))
    ensures BytesLaw(Consumed(r, k), frames, delivered + r.cells[r.rp..r.rp + k])
  {
    var taken, rest := r.cells[r.rp..r.rp + k], Pending(Consumed(r, k));
    assert delivered + (taken + rest) == (delivered + taken) + rest;
  }

  /** What a read moves, in a tunnel that is not lost, is cut short only at the end of the queue or
      of the block. */
  lemma ReadIsPrefix(m: Motor, count: nat)
    requires Wf(m.ring)
    ensures var r := m.ring; var k := ReadLength(m, count);
      && r.rp + k <= |r.cells| && Wf(Consumed(r, k))
      && Pending(r) == r.cells[r.rp..r.rp + k] + Pending(Consumed(r, k))
      && k <= count && (m.held ==> k == 0)
      && (!m.held && k < count ==> r.rp + k == r.wp || r.rp + k == |r.cells|)
  {
    if m.held || m.ring.rp == m.ring.wp {
      assert Consumed(m.ring, 0) == m.ring;
    } else {
      ReadTakesPrefix(m.ring, count);
      ReadStopsAtEnd(m.ring, count);
    }
  }

  lemma OpenKeepsBytes(cells: seq<byte>)
    requires cells != []
    ensures BytesLaw(Ring(cells, 0, 0), [], [])
  {
  }

  lemma StepKeepsBytes(t: Tape, e: Event)
    requires BytesLaw(t.m.ring, t.frames, t.delivered)
    ensures var u := Next(t, e); BytesLaw(u.m.ring, u.frames, u.delivered)
  {
    hide Pending, Produced, Consumed, Flat;
    match e
    case Open =>
      OpenKeepsBytes(t.m.ring.cells);
    case Ioctl(command, nonblock) =>
      if IoctlOutcome(t.m, nonblock) == Accepted {
        QueueFrame(t.m.ring, t.frames, t.delivered, Queued(t.m.ring, command));
      }
    case Read(count) =>
      ReadIsPrefix(t.m, count);
      HandOut(t.m.ring, t.frames, t.delivered, ReadLength(t.m, count));
  }

  lemma StepKeepsFrames(t: Tape, e: Event)
    requires Wf(t.m.ring) && FramesLaw(t.commands, t.frames)
    ensures FramesLaw(Next(t, e).commands, Next(t, e).frames)
  {
  }

  /** In every run, whatever its commands and reads. */
  lemma {:induction false} RunKeepsQueue(t: Tape, events: seq<Event>)
    requires QueueLaw(t)
    ensures QueueLaw(Play(t, events))
    decreases |events|
  {
    if events == [] {
    } else {
      StepKeepsBytes(t, events[0]);
      StepKeepsFrames(t, events[0]);
      RunKeepsQueue(Next(t, events[0]), events[1..]);
    }
  }

  /** Frame integrity, in every run: the frames read are as many as accepted commands at most,
      and the i-th decodes by its first four bytes to the i-th command accepted if and only if
      that command is one of the five. */
  lemma FramesArriveInOrder(t: Tape, events: seq<Event>, i: nat)
    requires Opened(t)
    ensures var u := Play(t, events);
      && |u.delivered| <= 5 * |u.commands|
      && (5 * i + 5 <= |u.delivered| ==>
            (Decode(u.delivered[5 * i..5 * i + 4]) == u.commands[i] <==> FrameOf(u.commands[i]).Some?))
  {
    hide Decode, FrameOf, Play;
    var u := Play(t, events);
    StartsInOrder(t);
    RunKeepsQueue(t, events);
    FlatAt(u.frames, i);
    if 5 * i + 5 <= |u.delivered| {
      FrameInside(u.delivered, Pending(u.m.ring), i);
      if FrameOf(u.commands[i]).Some? {
        DecodeInvertsFrame(u.commands[i]);
      }
    }
  }

  lemma StartsInOrder(t: Tape)
    requires Opened(t)
    ensures QueueLaw(t)
  {
  }

  lemma FrameInside(front: seq<byte>, back: seq<byte>, i: nat)
    requires 5 * i + 5 <= |front|
    ensures front[5 * i..5 * i + 4] == (front + back)[5 * i..5 * i + 5][..4]
  {
  }

  // ----- a ring of a multiple of five cells

  ghost predicate Aligned(t: Tape) {
    && Wf(t.m.ring) && |t.m.ring.cells| % 5 == 0
    && t.m.ring.rp % 5 == 0 && t.m.ring.wp % 5 == 0
    && |t.delivered| % 5 == 0
  }

  /** Every read asks for a whole number of frames. */
  ghost predicate FrameReads(events: seq<Event>) {
    forall i :: 0 <= i < |events| && events[i].Read? ==> events[i].count % 5 == 0
  }

  /** A read of whole frames from a ring that is not empty returns at least one and splits none. */
  lemma ReadsWholeFrames(t: Tape, count: nat)
    requires Aligned(t) && count % 5 == 0
    ensures Aligned(Next(t, Read(count)))
    ensures ReadLength(t.m, count) % 5 == 0
    ensures !t.m.held && Pending(t.m.ring) != [] && count > 0 ==> ReadLength(t.m, count) >= 5
  {
    hide Pending;
    RoomAndPending(t.m.ring);
    ReadLengthInFives(t.m, count);
  }

  lemma ReadLengthInFives(m: Motor, count: nat)
    requires Wf(m.ring) && |m.ring.cells| % 5 == 0 && m.ring.rp % 5 == 0 && m.ring.wp % 5 == 0 && count % 5 == 0
    ensures ReadLength(m, count) % 5 == 0
    ensures !m.held && m.ring.rp != m.ring.wp && count > 0 ==> ReadLength(m, count) >= 5
  {
  }

  lemma QueuesWholeFrames(t: Tape, command: nat, nonblock: bool)
    requires Aligned(t)
    ensures Aligned(Next(t, Ioctl(command, nonblock)))
  {
  }

  lemma {:induction false} RunStaysAligned(t: Tape, events: seq<Event>)
    requires Aligned(t) && FrameReads(events)
    ensures Aligned(Play(t, events))
    decreases |events|
  {
    if events == [] {
    } else {
      assert events[0].Read? ==> events[0].count % 5 == 0;
      match events[0] {
        case Ioctl(command, nonblock) => QueuesWholeFrames(t, command, nonblock);
        case Read(count) => ReadsWholeFrames(t, count);
        case Open =>
      }
      forall i | 0 <= i < |events[1..]| && events[1..][i].Read? ensures events[1..][i].count % 5 == 0 {
        assert events[1..][i] == events[i + 1];
      }
      RunStaysAligned(Next(t, events[0]), events[1..]);
    }
  }

  /** What has been read since the open is a whole number of frames, if the size is a multiple
      of five and every read asks for whole frames. */
  lemma DeliversWholeFrames(t: Tape, events: seq<Event>)
    requires Opened(t) && |t.m.ring.cells| % 5 == 0 && FrameReads(events)
    ensures |Play(t, events).delivered| % 5 == 0
  {
    RunStaysAligned(t, events);
  }

  // ----- every run and every size: which answer an ioctl gets

  /** `wp` moves by fives; where five does not divide the size it never wraps, so that it counts
      the commands accepted and the read pointer stays behind it. */
  ghost predicate InFives(t: Tape) {
    && Wf(t.m.ring) && t.m.ring.wp % 5 == 0
    && (|t.m.ring.cells| % 5 != 0 ==> t.m.ring.wp == 5 * |t.commands| && t.m.ring.rp <= t.m.ring.wp)
  }

  lemma StepStaysInFives(t: Tape, e: Event)
    requires InFives(t)
    ensures InFives(Next(t, e))
  {
  }

  lemma {:induction false} RunStaysInFives(t: Tape, events: seq<Event>)
    requires InFives(t)
    ensures InFives(Play(t, events))
    decreases |events|
  {
    if events == [] {
    } else {
      StepStaysInFives(t, events[0]);
      RunStaysInFives(Next(t, events[0]), events[1..]);
    }
  }

  /** For every size the write pointer only ever stands at a multiple of five. */
  lemma {:induction false} WritePointerInFives(t: Tape, events: seq<Event>)
    requires Wf(t.m.ring) && t.m.ring.wp % 5 == 0
    ensures Play(t, events).m.ring.wp % 5 == 0
    decreases |events|
  {
    if events == [] {
    } else {
      WritePointerInFives(Next(t, events[0]), events[1..]);
    }
  }

  /** Not full, but without room for one more frame. */
  ghost predicate Overfull(t: Tape)
    requires Wf(t.m.ring)
  {
    var n, pending := |t.m.ring.cells|, |Pending(t.m.ring)|;
    pending != n - 1 && if n % 5 == 0 then pending >= n - 5 else |t.commands| >= n / 5
  }

  lemma OutcomeNow(t: Tape, nonblock: bool)
    requires InFives(t)
    ensures IoctlOutcome(t.m, nonblock) ==
      if t.m.held then Blocked
      else if |Pending(t.m.ring)| == |t.m.ring.cells| - 1 then (if nonblock then NotNow else Asleep)
      else if Overfull(t) then Refused else Accepted
  {
    hide Pending;
    RoomAndPending(t.m.ring);
    RoomInFives(t.m.ring);
  }

  lemma RoomInFives(r: Ring)
    requires Wf(r) && r.wp % 5 == 0 && (|r.cells| % 5 != 0 ==> r.rp <= r.wp)
    ensures Room(r) == 0 || (WriteCount(r, CMD_STR_LEN) < CMD_STR_LEN <==>
      if |r.cells| % 5 == 0 then Room(r) < 5 else r.wp / 5 >= |r.cells| / 5)
  {
  }

  /** Capacity, after any run: a full ring makes the caller wait; a ring whose size is a multiple
      of five takes a command while less than N - 5 bytes are pending, any other one takes N/5
      commands in all; every further command is refused. Nothing but an accepted command
      changes the ring. */
  lemma ExactCapacity(t: Tape, events: seq<Event>, command: nat, nonblock: bool)
    requires Opened(t)
    ensures var u := Play(t, events);
      var n, pending, out := |t.m.ring.cells|, |Pending(u.m.ring)|, IoctlOutcome(u.m, nonblock);
      && out == (if u.m.held then Blocked
                 else if pending == n - 1 then (if nonblock then NotNow else Asleep)
                 else if n % 5 == 0 then (if pending >= n - 5 then Refused else Accepted)
                 else if |u.commands| < n / 5 then Accepted else Refused)
      && (out != Accepted ==> Next(u, Ioctl(command, nonblock)) == u.(m := Motor(u.m.ring, u.m.held || out == Refused)))
  {
    RunStaysInFives(t, events);
    OutcomeNow(Play(t, events), nonblock);
  }

  lemma PendingInFives(t: Tape, events: seq<Event>)
    requires Opened(t) && |t.m.ring.cells| % 5 == 0 && FrameReads(events)
    ensures |Pending(Play(t, events).m.ring)| % 5 == 0
  {
    hide Pending, Play;
    DeliversWholeFrames(t, events);
    StartsInOrder(t);
    RunKeepsQueue(t, events);
    FlatAt(Play(t, events).frames, 0);
  }

  /** Capacity in frames: in a ring of a multiple of five read by whole frames the wait is never
      entered, and a command is accepted if and only if fewer than N/5 - 1 frames are pending. */
  lemma FrameCapacity(t: Tape, events: seq<Event>, nonblock: bool)
    requires Opened(t) && |t.m.ring.cells| % 5 == 0 && FrameReads(events)
    ensures var u := Play(t, events); var pending := |Pending(u.m.ring)|;
      && pending % 5 == 0 && pending != |t.m.ring.cells| - 1
      && IoctlOutcome(u.m, nonblock) ==
           if u.m.held then Blocked
           else if pending / 5 < |t.m.ring.cells| / 5 - 1 then Accepted else Refused
  {
    hide Pending, Play, IoctlOutcome;
    PendingInFives(t, events);
    ExactCapacity(t, events, 0, nonblock);
  }

  // ----- the lost semaphore

  lemma {:induction false} HeldIsForever(t: Tape, events: seq<Event>)
    requires Wf(t.m.ring) && t.m.held
    ensures Play(t, events) == t
    decreases |events|
  {
    if events == [] {
    } else {
      assert Consumed(t.m.ring, 0) == t.m.ring;
      assert t.delivered + t.m.ring.cells[t.m.ring.rp..t.m.ring.rp] == t.delivered;
      assert Next(t, events[0]) == t;
      HeldIsForever(t, events[1..]);
    }
  }

  /** A refused ioctl ends the tunnel: no later call, not even an open, changes anything. */
  lemma RefusalIsForever(t: Tape, command: nat, nonblock: bool, events: seq<Event>)
    requires Wf(t.m.ring) && IoctlOutcome(t.m, nonblock) == Refused
    ensures var u := Next(t, Ioctl(command, nonblock));
      Play(u, events) == u && u == t.(m := Motor(t.m.ring, true))
  {
    HeldIsForever(Next(t, Ioctl(command, nonblock)), events);
  }

  /** No command of the run arrives when the tunnel is overfull. */
  ghost predicate Gentle(t: Tape, events: seq<Event>)
    requires Wf(t.m.ring)
    decreases |events|
  {
    events == [] || ((events[0].Ioctl? ==> !Overfull(t)) && Gentle(Next(t, events[0]), events[1..]))
  }

  lemma StepHolds(t: Tape, e: Event)
    requires InFives(t) && !t.m.held
    ensures Next(t, e).m.held <==> e.Ioctl? && Overfull(t)
  {
    if e.Ioctl? {
      OutcomeNow(t, e.nonblock);
    }
  }

  lemma {:induction false} RunHolds(t: Tape, events: seq<Event>)
    requires InFives(t) && !t.m.held
    ensures Play(t, events).m.held <==> !Gentle(t, events)
    decreases |events|
  {
    if events == [] {
    } else {
      var u := Next(t, events[0]);
      StepHolds(t, events[0]);
      StepStaysInFives(t, events[0]);
      if u.m.held {
        HeldIsForever(u, events[1..]);
      } else {
        RunHolds(u, events[1..]);
      }
    }
  }

  /** A run loses the semaphore if and only if one of its commands arrives when the tunnel, while
      not full, has no room for a frame. */
  lemma LostIffOverfull(t: Tape, events: seq<Event>)
    requires Opened(t) && !t.m.held
    ensures Play(t, events).m.held <==> !Gentle(t, events)
  {
    RunHolds(t, events);
  }

  // ----- runs that lose it

  function Burst(command: nat, nonblock: bool, k: nat): (events: seq<Event>)
    ensures |events| == k && forall i :: 0 <= i < k ==> events[i] == Ioctl(command, nonblock)
  {
    if k == 0 then [] else [Ioctl(command, nonblock)] + Burst(command, nonblock, k - 1)
  }

  /** How many more commands fit. */
  ghost function Left(t: Tape): int
    requires Wf(t.m.ring)
  {
    var n := |t.m.ring.cells|;
    if n % 5 == 0 then (n - 1 - |Pending(t.m.ring)|) / 5 else n / 5 - |t.commands|
  }

  lemma TakesOne(t: Tape, command: nat, nonblock: bool)
    requires InFives(t) && !t.m.held && Left(t) > 0
    ensures var u := Next(t, Ioctl(command, nonblock));
      InFives(u) && !u.m.held && Left(u) == Left(t) - 1 && |Pending(u.m.ring)| == |Pending(t.m.ring)| + 5
  {
    hide Pending, Produced, WriteCount;
    NotFullYet(t);
    OutcomeNow(t, nonblock);
    StepStaysInFives(t, Ioctl(command, nonblock));
    WriteAppends(t.m.ring, Queued(t.m.ring, command));
  }

  lemma NotFullYet(t: Tape)
    requires InFives(t) && Left(t) > 0
    ensures |Pending(t.m.ring)| + 5 <= |t.m.ring.cells| - 1
  {
  }

  lemma {:induction false} BurstFills(t: Tape, command: nat, nonblock: bool, k: nat)
    requires InFives(t) && !t.m.held && k <= Left(t)
    ensures var u := Play(t, Burst(command, nonblock, k));
      InFives(u) && !u.m.held && Left(u) == Left(t) - k && |Pending(u.m.ring)| == |Pending(t.m.ring)| + 5 * k
    decreases k
  {
    hide Pending, InFives, Left;
    if k == 0 {
    } else {
      TakesOne(t, command, nonblock);
      BurstFills(Next(t, Ioctl(command, nonblock)), command, nonblock, k - 1);
    }
  }

  lemma {:induction false} PlayThen(t: Tape, before: seq<Event>, after: seq<Event>)
    requires Wf(t.m.ring)
    ensures Play(t, before + after) == Play(Play(t, before), after)
    decreases |before|
  {
    if before == [] {
      assert before + after == after;
    } else {
      assert (before + after)[1..] == before[1..] + after;
      PlayThen(Next(t, before[0]), before[1..], after);
    }
  }

  lemma PlayOne(t: Tape, e: Event)
    requires Wf(t.m.ring)
    ensures Play(t, [e]) == Next(t, e)
  {
    assert Play(Next(t, e), []) == Next(t, e);
  }

  /** Fill the ring and send one command more; if the filling leaves no free cell at all, read a
      byte first. */
  function LosingRun(n: nat, command: nat, nonblock: bool): seq<Event>
    requires n >= 2
  {
    Burst(command, nonblock, if n % 5 == 0 then n / 5 - 1 else n / 5)
    + ((if n % 5 == 1 then [Read(1)] else []) + [Ioctl(command, nonblock)])
  }

  lemma FilledIsOverfull(t: Tape)
    requires InFives(t) && Left(t) == 0 && |Pending(t.m.ring)| != |t.m.ring.cells| - 1
    ensures Overfull(t)
  {
  }

  lemma LastIsRefused(t: Tape, command: nat, nonblock: bool)
    requires InFives(t) && !t.m.held && Left(t) == 0 && |Pending(t.m.ring)| != |t.m.ring.cells| - 1
    ensures Play(t, [Ioctl(command, nonblock)]).m.held
  {
    hide Pending, Left;
    FilledIsOverfull(t);
    StepHolds(t, Ioctl(command, nonblock));
    PlayOne(t, Ioctl(command, nonblock));
  }

  /** The read of one byte takes that byte and no room for a command. */
  lemma ReadOne(t: Tape)
    requires InFives(t) && !t.m.held && |t.m.ring.cells| % 5 == 1 && t.m.ring.rp != t.m.ring.wp
    ensures var u := Next(t, Read(1));
      InFives(u) && !u.m.held && Left(u) == Left(t) && |Pending(u.m.ring)| < |t.m.ring.cells| - 1
  {
    hide Pending;
    StepStaysInFives(t, Read(1));
    RoomAndPending(t.m.ring);
    ReadTakesPrefix(t.m.ring, 1);
  }

  /** Every tunnel of two cells or more can be lost by commands it accepts and one that it refuses. */
  lemma LosingRunLoses(t: Tape, command: nat, nonblock: bool)
    requires Opened(t) && !t.m.held && |t.m.ring.cells| >= 2
    ensures Play(t, LosingRun(|t.m.ring.cells|, command, nonblock)).m.held
  {
    hide Overfull, InFives, Left;
    var n := |t.m.ring.cells|;
    var k := if n % 5 == 0 then n / 5 - 1 else n / 5;
    JustOpened(t);
    BurstFills(t, command, nonblock, k);
    var u := Play(t, Burst(command, nonblock, k));
    var last := [Ioctl(command, nonblock)];
    if n % 5 == 1 {
      RoomAndPending(u.m.ring);
      ReadOne(u);
      PlayThen(u, [Read(1)], last);
      PlayOne(u, Read(1));
      PlayThen(t, Burst(command, nonblock, k), [Read(1)] + last);
      LastIsRefused(Next(u, Read(1)), command, nonblock);
    } else {
      assert [] + last == last;
      PlayThen(t, Burst(command, nonblock, k), last);
      LastIsRefused(u, command, nonblock);
    }
  }

  lemma JustOpened(t: Tape)
    requires Opened(t)
    ensures InFives(t) && Pending(t.m.ring) == []
    ensures Left(t) == if |t.m.ring.cells| % 5 == 0 then |t.m.ring.cells| / 5 - 1 else |t.m.ring.cells| / 5
  {
  }

  lemma {:induction false} OneCellIsGentle(t: Tape, events: seq<Event>)
    requires Wf(t.m.ring) && |t.m.ring.cells| == 1
    ensures Gentle(t, events)
    decreases |events|
  {
    if events == [] {
    } else {
      OneCellIsGentle(Next(t, events[0]), events[1..]);
    }
  }

  /** Only the tunnel of one cell, which never takes a command, is safe from this. */
  lemma LosableIffTwoCells(t: Tape)
    requires Opened(t) && !t.m.held
    ensures (exists events :: Play(t, events).m.held) <==> |t.m.ring.cells| >= 2
  {
    if |t.m.ring.cells| >= 2 {
      LosingRunLoses(t, PI_CMD_STOP, true);
    } else {
      forall events ensures !Play(t, events).m.held {
        OneCellIsGentle(t, events);
        LostIffOverfull(t, events);
      }
    }
  }

  /** If five does not divide the size, the pointer never wraps: between two opens at most N/5
      commands are ever accepted, however much is read. The next one, unless it finds the ring
      full to the last cell, ends the tunnel: nothing changes it again, opens included. */
  lemma OneLapOnly(t: Tape, events: seq<Event>, command: nat, nonblock: bool, more: seq<Event>)
    requires Opened(t) && |t.m.ring.cells| % 5 != 0
    ensures var u := Play(t, events); var v := Next(u, Ioctl(command, nonblock)); var n := |t.m.ring.cells|;
      && u.m.ring.wp == 5 * |u.commands| && |u.commands| <= n / 5
      && (|u.commands| == n / 5 && |Pending(u.m.ring)| < n - 1 ==>
            v == u.(m := Motor(u.m.ring, true)) && Play(v, more) == v)
  {
    hide Pending;
    RunStaysInFives(t, events);
    var u := Play(t, events);
    ExactCapacity(t, events, command, nonblock);
    if |u.commands| == |t.m.ring.cells| / 5 && |Pending(u.m.ring)| < |t.m.ring.cells| - 1 {
      HeldIsForever(Next(u, Ioctl(command, nonblock)), more);
    }
  }

  // ----- unrecognised commands

  /** The five cells of slot `j` of the block. */
  function Slot(cells: seq<byte>, j: nat): seq<byte>
    requires 5 * j + 5 <= |cells|
  {
    cells[5 * j..5 * j + 5]
  }

  /** The slot that lies `d` places behind slot `w` on the circle. */
  function Behind(w: nat, d: nat, slots: nat): nat
    requires w < slots && d <= slots
  {
    if d <= w then w - d else w + slots - d
  }

  /** The block still holds the last N/5 frames queued, one to a slot, newest just behind `wp`. */
  ghost predicate Laps(r: Ring, frames: seq<seq<byte>>, w: nat, slots: nat) {
    && Wf(r) && |r.cells| == 5 * slots && r.wp == 5 * w && w < slots && AllFrames(frames)
    && forall d: nat :: 1 <= d <= slots && d <= |frames| ==> Slot(r.cells, Behind(w, d, slots)) == frames[|frames| - d]
  }

  function NextSlot(w: nat, slots: nat): nat {
    if w + 1 == slots then 0 else w + 1
  }

  lemma OverwriteSlot(cells: seq<byte>, w: nat, f: seq<byte>, j: nat)
    requires |f| == 5 && 5 * w + 5 <= |cells| && 5 * j + 5 <= |cells|
    ensures Slot(Overwrite(cells, 5 * w, f), j) == if j == w then f else Slot(cells, j)
  {
    var c := Overwrite(cells, 5 * w, f);
    if j < w {
      assert Slot(c, j) == Slot(cells, j);
    } else if j > w {
      assert 5 * j >= 5 * w + 5;
      assert Slot(c, j) == Slot(cells, j);
    }
  }

  lemma FrameKeepsLaps(r: Ring, frames: seq<seq<byte>>, w: nat, slots: nat, f: seq<byte>)
    requires Laps(r, frames, w, slots) && |f| == CMD_STR_LEN
    ensures Laps(Produced(r, f), frames + [f], NextSlot(w, slots), slots)
  {
    var r', frames', w' := Produced(r, f), frames + [f], NextSlot(w, slots);
    forall d: nat | 1 <= d <= slots && d <= |frames'|
      ensures Slot(r'.cells, Behind(w', d, slots)) == frames'[|frames'| - d]
    {
      OverwriteSlot(r.cells, w, f, Behind(w', d, slots));
      if d > 1 {
        assert Behind(w', d, slots) == Behind(w, d - 1, slots) != w;
        assert Slot(r.cells, Behind(w, d - 1, slots)) == frames[|frames| - (d - 1)];
      }
    }
  }

  lemma StepKeepsLaps(t: Tape, e: Event, w: nat, slots: nat) returns (w': nat)
    requires Laps(t.m.ring, t.frames, w, slots)
    ensures Laps(Next(t, e).m.ring, Next(t, e).frames, w', slots)
  {
    w' := w;
    match e
    case Open =>
      if !t.m.held {
        w' := 0;
      }
    case Ioctl(command, nonblock) =>
      if IoctlOutcome(t.m, nonblock) == Accepted {
        FrameKeepsLaps(t.m.ring, t.frames, w, slots, Queued(t.m.ring, command));
        w' := NextSlot(w, slots);
      }
    case Read(count) =>
  }

  lemma {:induction false} RunKeepsLaps(t: Tape, events: seq<Event>, w: nat, slots: nat) returns (w': nat)
    requires Laps(t.m.ring, t.frames, w, slots)
    ensures Laps(Play(t, events).m.ring, Play(t, events).frames, w', slots)
    decreases |events|
  {
    w' := w;
    if events == [] {
    } else {
      w' := StepKeepsLaps(t, events[0], w, slots);
      w' := RunKeepsLaps(Next(t, events[0]), events[1..], w', slots);
    }
  }

  /** An unrecognised command is accepted like any other, but what it queues is the frame that
      was queued exactly one lap, that is N/5 accepted commands, earlier. */
  lemma UnrecognisedReplays(t: Tape, events: seq<Event>, command: nat, nonblock: bool)
    requires Opened(t) && |t.m.ring.cells| % 5 == 0 && FrameOf(command).None?
    ensures var u := Play(t, events); var lap := |t.m.ring.cells| / 5;
      IoctlOutcome(u.m, nonblock) == Accepted && |u.frames| >= lap ==>
        && Next(u, Ioctl(command, nonblock)).frames == u.frames + [u.frames[|u.frames| - lap]]
        && Pending(Next(u, Ioctl(command, nonblock)).m.ring) == Pending(u.m.ring) + u.frames[|u.frames| - lap]
  {
    hide Pending, Next, IoctlOutcome;
    var lap := |t.m.ring.cells| / 5;
    var u := Play(t, events);
    var w := RunKeepsLaps(t, events, 0, lap);
    if IoctlOutcome(u.m, nonblock) == Accepted && |u.frames| >= lap {
      QueuesLastLap(u, command, nonblock, w, lap);
    }
  }

  lemma QueuesLastLap(t: Tape, command: nat, nonblock: bool, w: nat, lap: nat)
    requires Laps(t.m.ring, t.frames, w, lap) && |t.frames| >= lap
    requires IoctlOutcome(t.m, nonblock) == Accepted && FrameOf(command).None?
    ensures var v := Next(t, Ioctl(command, nonblock));
      && v.frames == t.frames + [t.frames[|t.frames| - lap]]
      && Pending(v.m.ring) == Pending(t.m.ring) + t.frames[|t.frames| - lap]
  {
    hide Pending;
    assert Behind(w, lap, lap) == w;
    assert Slot(t.m.ring.cells, w) == t.frames[|t.frames| - lap];
    WriteAppends(t.m.ring, Queued(t.m.ring, command));
  }

  ghost predicate NoOpen(events: seq<Event>) {
    forall i :: 0 <= i < |events| ==> !events[i].Open?
  }

  /** From the `count`-th slot on, the block still holds what it held at the open. */
  ghost predicate Untouched(was: seq<byte>, r: Ring, count: nat) {
    && Wf(r) && |r.cells| == |was|
    && (count < |was| / 5 ==> r.wp == 5 * count)
    && forall j: nat :: count <= j < |was| / 5 ==> Slot(r.cells, j) == Slot(was, j)
  }

  lemma FrameLeavesRest(was: seq<byte>, r: Ring, count: nat, f: seq<byte>)
    requires Untouched(was, r, count) && |f| == CMD_STR_LEN && r.wp + CMD_STR_LEN <= |was|
    ensures Untouched(was, Produced(r, f), count + 1)
  {
    forall j: nat | count + 1 <= j < |was| / 5 ensures Slot(Produced(r, f).cells, j) == Slot(was, j) {
      OverwriteSlot(r.cells, count, f, j);
    }
  }

  lemma {:induction false} RunLeavesRest(was: seq<byte>, t: Tape, events: seq<Event>)
    requires Untouched(was, t.m.ring, |t.frames|) && NoOpen(events)
    ensures Untouched(was, Play(t, events).m.ring, |Play(t, events).frames|)
    decreases |events|
  {
    if events == [] {
    } else {
      var e := events[0];
      assert !e.Open?;
      if e.Ioctl? && IoctlOutcome(t.m, e.nonblock) == Accepted {
        FrameLeavesRest(was, t.m.ring, |t.frames|, Queued(t.m.ring, e.command));
      }
      RunLeavesRest(was, Next(t, e), events[1..]);
    }
  }

  /** On the first lap after an open an unrecognised command queues what the block happened to
      hold at the open; a fresh block is not cleared. For a size that is no multiple of five
      there is no other lap. */
  lemma UnrecognisedQueuesOldCells(t: Tape, events: seq<Event>, command: nat, nonblock: bool)
    requires Opened(t) && NoOpen(events) && FrameOf(command).None?
    ensures var u := Play(t, events); var cells := t.m.ring.cells;
      IoctlOutcome(u.m, nonblock) == Accepted && |u.frames| < |cells| / 5 ==>
        var v := Next(u, Ioctl(command, nonblock));
        && v.frames == u.frames + [Slot(cells, |u.frames|)]
        && Pending(v.m.ring) == Pending(u.m.ring) + Slot(cells, |u.frames|)
  {
    RunLeavesRest(t.m.ring.cells, t, events);
    var u := Play(t, events);
    if IoctlOutcome(u.m, nonblock) == Accepted && |u.frames| < |t.m.ring.cells| / 5 {
      QueuesOldSlot(t.m.ring.cells, u, command, nonblock);
    }
  }

  /** An open empties the queue and clears no cell: on the first lap after it an unrecognised
      command queues what the calls before the open left in its slot. */
  lemma ReopenKeepsCells(t: Tape, before: seq<Event>, after: seq<Event>, command: nat, nonblock: bool)
    requires Wf(t.m.ring) && !Play(t, before).m.held && NoOpen(after) && FrameOf(command).None?
    ensures var was, u := Play(t, before), Play(t, before + ([Open] + after));
      && Opened(Next(was, Open)) && !Next(was, Open).m.held
      && |u.m.ring.cells| == |was.m.ring.cells|
      && (IoctlOutcome(u.m, nonblock) == Accepted && |u.frames| < |was.m.ring.cells| / 5 ==>
            Next(u, Ioctl(command, nonblock)).frames == u.frames + [Slot(was.m.ring.cells, |u.frames|)])
  {
    hide Play, Pending, IoctlOutcome;
    PlayThen(t, before, [Open] + after);
    PlayThen(Play(t, before), [Open], after);
    PlayOne(Play(t, before), Open);
    UnrecognisedQueuesOldCells(Next(Play(t, before), Open), after, command, nonblock);
  }

  lemma QueuesOldSlot(was: seq<byte>, t: Tape, command: nat, nonblock: bool)
    requires Untouched(was, t.m.ring, |t.frames|) && |t.frames| < |was| / 5
    requires IoctlOutcome(t.m, nonblock) == Accepted && FrameOf(command).None?
    ensures var v := Next(t, Ioctl(command, nonblock));
      && v.frames == t.frames + [Slot(was, |t.frames|)]
      && Pending(v.m.ring) == Pending(t.m.ring) + Slot(was, |t.frames|)
  {
    hide Pending;
    WriteAppends(t.m.ring, Queued(t.m.ring, command));
  }
}
