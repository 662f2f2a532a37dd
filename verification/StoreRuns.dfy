/** The store over whole runs: it is a sparse file, and whole transfers take the expected calls. */
module StoreRuns {
  import opened Bytes
  import opened Addressing
  import opened Stores

  // ----- any interleaving of opens, seeks, reads and writes on any number of open files

  datatype Event =
    | Open(fd: nat, writeOnly: bool)
    | Seek(fd: nat, off: int, whence: int)
    | Read(fd: nat, count: nat, faults: bool)
    | Write(fd: nat, data: seq<byte>, a: Alloc, faults: bool, junk: seq<byte>)

  /** The device, the position of every open file, and the two module parameters. */
  datatype World = World(store: Store, pos: map<nat, nat>, quantum: nat, qset: nat)

  ghost predicate WorldOk(w: World) {
    Wf(w.store) && 0 < w.quantum && 0 < w.qset
  }

  function Step(w: World, e: Event): World
    requires Wf(w.store)
  {
    if e.Open? then
      World(if e.writeOnly then Empty(w.quantum, w.qset) else w.store, w.pos[e.fd := 0], w.quantum, w.qset)
    else if e.fd !in w.pos then w
    else
      var p := w.pos[e.fd];
      match e
      case Seek(fd, off, whence) =>
        var t := SeekTo(w.store.size, p, off, whence);
        if t.Some? then w.(pos := w.pos[fd := t.value]) else w
      case Read(fd, count, faults) =>
        if faults then w else w.(pos := w.pos[fd := p + |ReadBytes(w.store, p, count)|])
      case Write(fd, data, a, faults, junk) =>
        var r := WriteResult(w.store, p, data, a, faults);
        World(AfterWrite(w.store, p, data, a, faults, junk),
              if r.Wrote? then w.pos[fd := p + r.count] else w.pos, w.quantum, w.qset)
      case Open(_, _) => w
  }

  /** A sparse file: the bytes whose last writer is known, and a size. */
  datatype Sparse = Sparse(bytes: map<nat, byte>, size: nat)

  function Offsets(pos: nat, n: nat): (r: set<nat>)
    ensures forall o :: o in r <==> pos <= o < pos + n
  {
    if n == 0 then {} else Offsets(pos, n - 1) + {pos + n - 1}
  }

  function Laid(bytes: map<nat, byte>, pos: nat, data: seq<byte>): map<nat, byte> {
    bytes + map o | o in Offsets(pos, |data|) :: data[o - pos]
  }

  function Forgotten(bytes: map<nat, byte>, pos: nat, n: nat): map<nat, byte> {
    bytes - Offsets(pos, n)
  }

  /** What the answers of the calls tell about the file: a write sets the bytes it reports, a
      faulting one makes its range unknown, a write-only open forgets everything. */
  function Tell(f: Sparse, w: World, e: Event): Sparse
    requires Wf(w.store)
  {
    if e.Open? then (if e.writeOnly then Sparse(map[], 0) else f)
    else if e.fd !in w.pos || !e.Write? then f
    else
      var p := w.pos[e.fd];
      match WriteResult(w.store, p, e.data, e.a, e.faults)
      case NoMem => f
      case Fault => Sparse(Forgotten(f.bytes, p, Transfer(w.store, p, |e.data|)), f.size)
      case Wrote(n) => Sparse(Laid(f.bytes, p, e.data[..n]), if f.size < p + n then p + n else f.size)
  }

  ghost predicate Refines(s: Store, f: Sparse) {
    && Wf(s) && s.size == f.size
    && forall o :: o in f.bytes ==> Peek(s, o) == Some(f.bytes[o])
  }

  lemma WriteSize(s: Store, pos: nat, data: seq<byte>, a: Alloc, faults: bool, junk: seq<byte>)
    requires Wf(s)
    ensures var r := WriteResult(s, pos, data, a, faults);
      AfterWrite(s, pos, data, a, faults, junk).size ==
        if r.Wrote? && s.size < pos + r.count then pos + r.count else s.size
    ensures WriteResult(s, pos, data, a, faults).Wrote? ==>
      WriteResult(s, pos, data, a, faults).count == Transfer(s, pos, |data|)
  {
    Split(pos, s.quantum, s.qset);
    PrepareKeeps(s, Key(s, pos), a);
  }

  lemma WriteRefines(s: Store, f: Sparse, w: World, e: Event)
    requires Refines(s, f) && s == w.store && e.Write? && e.fd in w.pos
    ensures Refines(Step(w, e).store, Tell(f, w, e))
  {
    hide Peek, WriteResult, AfterWrite, Stores.Wf;
    var p := w.pos[e.fd];
    WriteKeepsWf(s, p, e.data, e.a, e.faults, e.junk);
    WriteSize(s, p, e.data, e.a, e.faults, e.junk);
    var f' := Tell(f, w, e);
    forall o | o in f'.bytes ensures Peek(Step(w, e).store, o) == Some(f'.bytes[o]) {
      WritePeek(s, p, e.data, e.a, e.faults, e.junk, o);
    }
  }

  lemma StepRefines(w: World, f: Sparse, e: Event)
    requires WorldOk(w) && Refines(w.store, f)
    ensures WorldOk(Step(w, e)) && Refines(Step(w, e).store, Tell(f, w, e))
  {
    if e.Write? && e.fd in w.pos {
      WriteRefines(w.store, f, w, e);
    }
  }

  function Run(w: World, events: seq<Event>): World
    requires WorldOk(w)
    decreases |events|
  {
    if events == [] then w
    else
      StepOk(w, events[0]);
      Run(Step(w, events[0]), events[1..])
  }

  function Told(f: Sparse, w: World, events: seq<Event>): Sparse
    requires WorldOk(w)
    decreases |events|
  {
    if events == [] then f
    else
      StepOk(w, events[0]);
      Told(Tell(f, w, events[0]), Step(w, events[0]), events[1..])
  }

  lemma StepOk(w: World, e: Event)
    requires WorldOk(w)
    ensures WorldOk(Step(w, e))
  {
    if e.Write? && e.fd in w.pos {
      WriteKeepsWf(w.store, w.pos[e.fd], e.data, e.a, e.faults, e.junk);
    }
  }

  lemma {:induction false} RunRefines(w: World, f: Sparse, events: seq<Event>)
    requires WorldOk(w) && Refines(w.store, f)
    ensures WorldOk(Run(w, events)) && Refines(Run(w, events).store, Told(f, w, events))
    decreases |events|
  {
    if events == [] {
    } else {
      StepOk(w, events[0]);
      StepRefines(w, f, events[0]);
      RunRefines(Step(w, events[0]), Tell(f, w, events[0]), events[1..]);
    }
  }

  /** After any run from the empty device, with any allocation failures and user-copy faults:
      a read agrees, byte by byte, with the last write reported at each offset. */
  lemma ReadsLastWrite(quantum: nat, qset: nat, events: seq<Event>, pos: nat, count: nat, i: nat)
    requires 0 < quantum && 0 < qset
    ensures var w := World(Empty(quantum, qset), map[], quantum, qset);
      && WorldOk(w)
      && var u := Run(w, events); var f := Told(Sparse(map[], 0), w, events);
      && Wf(u.store) && u.store.size == f.size
      && u.store.size <= u.store.length * (u.store.quantum * u.store.qset)
      && var r := ReadBytes(u.store, pos, count);
      && |r| <= count && (r != [] ==> pos + |r| <= f.size)
      && (i < |r| && pos + i in f.bytes ==> r[i] == f.bytes[pos + i])
  {
    var w := World(Empty(quantum, qset), map[], quantum, qset);
    RunRefines(w, Sparse(map[], 0), events);
    ReadPeek(Run(w, events).store, pos, count, i);
  }

  // ----- what each call does to the store and to the positions

  /** Only a write changes the bytes, only a write-only open empties the device, and only with the
      parameters of the module; a call on a file that is not open does nothing. */
  lemma OnlyWritesChange(w: World, e: Event)
    requires WorldOk(w)
    ensures var u := Step(w, e);
      && u.quantum == w.quantum && u.qset == w.qset
      && (e.Open? && e.writeOnly ==> u.store == Store(w.quantum, w.qset, 0, {}, map[], 0))
      && (!e.Write? && !(e.Open? && e.writeOnly) ==> u.store == w.store)
      && (!e.Open? && e.fd !in w.pos ==> u == w)
      && (forall fd :: fd != e.fd ==> (fd in u.pos <==> fd in w.pos) && (fd in w.pos ==> u.pos[fd] == w.pos[fd]))
  {
  }

  /** An open starts at 0; a seek goes where it says, or nowhere. */
  lemma SeekSets(w: World, fd: nat, off: int, whence: int, writeOnly: bool)
    requires WorldOk(w)
    ensures var u := Step(w, Open(fd, writeOnly)); fd in u.pos && u.pos[fd] == 0
    ensures fd in w.pos ==>
      var target := if whence == 0 then off else if whence == 1 then w.pos[fd] + off
                    else if whence == 2 then w.store.size + off else -1;
      Step(w, Seek(fd, off, whence)).pos == w.pos[fd := if target >= 0 then target else w.pos[fd]]
  {
  }

  /** The bytes that one call moves: those a read hands out, those a write reports. */
  function Moves(w: World, e: Event): seq<byte>
    requires Wf(w.store)
  {
    if e.fd !in w.pos then []
    else
      match e
      case Read(fd, count, faults) => if faults then [] else ReadBytes(w.store, w.pos[fd], count)
      case Write(fd, data, a, faults, junk) =>
        (match WriteResult(w.store, w.pos[fd], data, a, faults)
         case Wrote(n) => data[..Min(n, |data|)]
         case _ => [])
      case _ => []
  }

  /** The bytes that the calls of `fd` move during a run. */
  function MovedBy(fd: nat, w: World, events: seq<Event>): seq<byte>
    requires WorldOk(w)
    decreases |events|
  {
    if events == [] then []
    else
      StepOk(w, events[0]);
      (if events[0].fd == fd then Moves(w, events[0]) else []) + MovedBy(fd, Step(w, events[0]), events[1..])
  }

  ghost predicate OnlyTransfers(fd: nat, events: seq<Event>) {
    forall i :: 0 <= i < |events| && events[i].fd == fd ==> events[i].Read? || events[i].Write?
  }

  lemma StepMoves(w: World, e: Event, fd: nat)
    requires WorldOk(w) && fd in w.pos && (e.fd == fd ==> e.Read? || e.Write?)
    ensures var u := Step(w, e);
      fd in u.pos && u.pos[fd] == w.pos[fd] + if e.fd == fd then |Moves(w, e)| else 0
  {
    if e.Write? && e.fd == fd {
      WriteSize(w.store, w.pos[fd], e.data, e.a, e.faults, e.junk);
    }
  }

  /** Without an open or a seek, a position moves by exactly what the calls of its own file
      report, whatever the calls on other files do. */
  lemma {:induction false} PositionMoves(w: World, fd: nat, events: seq<Event>)
    requires WorldOk(w) && fd in w.pos && OnlyTransfers(fd, events)
    ensures fd in Run(w, events).pos && Run(w, events).pos[fd] == w.pos[fd] + |MovedBy(fd, w, events)|
    decreases |events|
  {
    hide Step, Moves, Stores.Wf;
    if events == [] {
    } else {
      StepOk(w, events[0]);
      StepMoves(w, events[0], fd);
      assert forall i :: 0 <= i < |events[1..]| ==> events[1..][i] == events[i + 1];
      PositionMoves(Step(w, events[0]), fd, events[1..]);
    }
  }

  // ----- streams

  /** `fd` only writes, nobody else writes, and nobody empties the device. */
  predicate WriterEvent(fd: nat, e: Event) {
    if e.fd == fd then e.Write? else !e.Write? && !(e.Open? && e.writeOnly)
  }

  /** `fd` only reads, and nobody changes the device. */
  predicate ReaderEvent(fd: nat, e: Event) {
    (e.fd == fd ==> e.Read?) && !e.Write? && !(e.Open? && e.writeOnly)
  }

  lemma WriterStep(w: World, e: Event, fd: nat, o: nat)
    requires WorldOk(w) && fd in w.pos && WriterEvent(fd, e)
    ensures var u := Step(w, e); var p := w.pos[fd]; var d := if e.fd == fd then Moves(w, e) else [];
      && WorldOk(u) && fd in u.pos && u.pos[fd] == p + |d|
      && (p <= o < p + |d| ==> Peek(u.store, o) == Some(d[o - p]))
      && (o < p ==> Peek(w.store, o).Some? ==> Peek(u.store, o) == Peek(w.store, o))
      && w.store.size <= u.store.size && (d != [] ==> p + |d| <= u.store.size)
  {
    hide Peek, AfterWrite, WriteResult;
    StepOk(w, e);
    StepMoves(w, e, fd);
    if e.fd == fd {
      WriteSize(w.store, w.pos[fd], e.data, e.a, e.faults, e.junk);
      WritePeek(w.store, w.pos[fd], e.data, e.a, e.faults, e.junk, o);
    } else {
      OnlyWritesChange(w, e);
    }
  }

  /** Writes in a row through one file, failed or cut short as they may be, store the bytes they
      report one after the other, while others read, seek and open. */
  lemma {:induction false} WritesConcatenate(w: World, fd: nat, events: seq<Event>, o: nat)
    requires WorldOk(w) && fd in w.pos && forall i :: 0 <= i < |events| ==> WriterEvent(fd, events[i])
    ensures WorldOk(Run(w, events))
    ensures var u := Run(w, events); var p, d := w.pos[fd], MovedBy(fd, w, events);
      && fd in u.pos && u.pos[fd] == p + |d|
      && (p <= o < p + |d| ==> Peek(u.store, o) == Some(d[o - p]))
      && (o < p && Peek(w.store, o).Some? ==> Peek(u.store, o) == Peek(w.store, o))
      && w.store.size <= u.store.size && (d != [] ==> p + |d| <= u.store.size)
    decreases |events|
  {
    hide Step, Moves, Stores.Wf, WriterEvent, Peek;
    if events == [] {
    } else {
      StepOk(w, events[0]);
      WriterStep(w, events[0], fd, o);
      assert forall i :: 0 <= i < |events[1..]| ==> events[1..][i] == events[i + 1];
      WritesConcatenate(Step(w, events[0]), fd, events[1..], o);
    }
  }

  lemma ReaderStep(w: World, e: Event, fd: nat, i: nat)
    requires WorldOk(w) && fd in w.pos && ReaderEvent(fd, e)
    ensures var u := Step(w, e); var p := w.pos[fd]; var d := if e.fd == fd then Moves(w, e) else [];
      && WorldOk(u) && u.store == w.store && fd in u.pos && u.pos[fd] == p + |d|
      && (i < |d| ==> Peek(w.store, p + i) == Some(d[i]))
  {
    hide Peek, ReadBytes;
    StepOk(w, e);
    StepMoves(w, e, fd);
    OnlyWritesChange(w, e);
    if e.fd == fd {
      ReadPeek(w.store, w.pos[fd], e.count, i);
    }
  }

  /** Reads in a row through one file hand out the stored bytes one after the other. */
  lemma {:induction false} ReadsConcatenate(w: World, fd: nat, events: seq<Event>, i: nat)
    requires WorldOk(w) && fd in w.pos && forall k :: 0 <= k < |events| ==> ReaderEvent(fd, events[k])
    ensures WorldOk(Run(w, events)) && Run(w, events).store == w.store
    ensures var p, d := w.pos[fd], MovedBy(fd, w, events); i < |d| ==> Peek(w.store, p + i) == Some(d[i])
    decreases |events|
  {
    hide Step, Moves, Stores.Wf, ReaderEvent, Peek;
    if events == [] {
    } else {
      var own := if events[0].fd == fd then |Moves(w, events[0])| else 0;
      StepOk(w, events[0]);
      ReaderStep(w, events[0], fd, i);
      assert forall k :: 0 <= k < |events[1..]| ==> events[1..][k] == events[k + 1];
      ReadsConcatenate(Step(w, events[0]), fd, events[1..], if i < own then 0 else i - own);
    }
  }

  // ----- whole transfers

  /** The number of calls for `n` bytes from offset `p`: one for each quantum touched. */
  function Calls(p: nat, n: nat, q: nat): nat
    requires 0 < q
  {
    if n == 0 then 0 else (p % q + n - 1) / q + 1
  }

  lemma CallsOfNothing(p: nat, q: nat)
    ensures 0 < q ==> Calls(p, 0, q) == 0
  {
  }

  /** What one call moves when nothing fails. */
  function Chunk(p: nat, n: nat, q: nat): nat
    requires 0 < q
  {
    Min(n, q - p % q)
  }

  lemma NextQuantum(p: nat, q: nat)
    requires 0 < q
    ensures (p + (q - p % q)) % q == 0
  {
    assert p + (q - p % q) == (p / q) * q + q == (p / q + 1) * q;
    DivUnique(p + (q - p % q), q, p / q + 1, 0);
  }

  lemma CallsStep(p: nat, n: nat, q: nat)
    requires 0 < q && 0 < n
    ensures var k := Chunk(p, n, q); 0 < k <= n && Calls(p, n, q) == 1 + Calls(p + k, n - k, q)
  {
    if n <= q - p % q {
      DivUnique(p % q + n - 1, q, 0, p % q + n - 1);
    } else {
      var m := n - (q - p % q) - 1;
      NextQuantum(p, q);
      assert p % q + n - 1 == (m / q + 1) * q + m % q;
      DivUnique(p % q + n - 1, q, m / q + 1, m % q);
    }
  }

  /** A car_write that reports `n` bytes, under whatever allocator lets it. */
  ghost predicate Writes(s: Store, pos: nat, data: seq<byte>, n: nat, t: Store)
    requires Wf(s)
  {
    exists a :: WriteResult(s, pos, data, a, false) == Wrote(n) && AfterWrite(s, pos, data, a, false, []) == t
  }

  lemma WritesFacts(s: Store, pos: nat, data: seq<byte>, n: nat, t: Store, o: nat)
    requires Wf(s) && Writes(s, pos, data, n, t)
    ensures Wf(t) && t.quantum == s.quantum && n == Chunk(pos, |data|, s.quantum)
    ensures t.size == if s.size < pos + n then pos + n else s.size
    ensures pos <= o < pos + n ==> Peek(t, o) == Some(data[o - pos])
    ensures !(pos <= o < pos + n) && Peek(s, o).Some? ==> Peek(t, o) == Peek(s, o)
  {
    var a :| WriteResult(s, pos, data, a, false) == Wrote(n) && AfterWrite(s, pos, data, a, false, []) == t;
    Split(pos, s.quantum, s.qset);
    WriteKeepsWf(s, pos, data, a, false, []);
    WriteSize(s, pos, data, a, false, []);
    WritePeek(s, pos, data, a, false, [], o);
  }

  /** With memory to be had, a write of something succeeds and moves at least a byte. */
  lemma WriteCanSucceed(s: Store, pos: nat, data: seq<byte>, content: seq<byte>) returns (t: Store)
    requires Wf(s) && |content| == s.quantum && data != []
    ensures Writes(s, pos, data, Chunk(pos, |data|, s.quantum), t) && 0 < Chunk(pos, |data|, s.quantum)
  {
    var a := Alloc(Item(pos, s.quantum, s.qset) + 1, true, true, content);
    Split(pos, s.quantum, s.qset);
    t := AfterWrite(s, pos, data, a, false, []);
    assert WriteResult(s, pos, data, a, false) == Wrote(Chunk(pos, |data|, s.quantum));
  }

  /** car_write repeated, each call going on where the last one stopped, until all is written. */
  ghost predicate WritesAll(s: Store, pos: nat, data: seq<byte>, calls: nat, u: Store)
    requires Wf(s)
    decreases |data|
  {
    if data == [] then calls == 0 && u == s
    else calls > 0 && exists n: nat, t ::
      && Writes(s, pos, data, n, t) && 0 < n <= |data| && Wf(t)
      && WritesAll(t, pos + n, data[n..], calls - 1, u)
  }

  lemma {:induction false} WritesAllExists(s: Store, pos: nat, data: seq<byte>) returns (calls: nat, u: Store)
    requires Wf(s)
    ensures WritesAll(s, pos, data, calls, u)
    decreases |data|
  {
    hide Peek, Writes;
    calls, u := 0, s;
    if data == [] {
    } else {
      var t := WriteCanSucceed(s, pos, data, seq(s.quantum, _ => 0));
      var n := Chunk(pos, |data|, s.quantum);
      WritesFacts(s, pos, data, n, t, 0);
      calls, u := WritesAllExists(t, pos + n, data[n..]);
      calls := calls + 1;
    }
  }

  /** It takes the expected number of calls, stores every byte in place and leaves all other
      stored bytes alone. */
  lemma {:induction false} WritesAllFacts(s: Store, pos: nat, data: seq<byte>, calls: nat, u: Store, o: nat)
    requires Wf(s) && WritesAll(s, pos, data, calls, u)
    ensures Wf(u) && u.quantum == s.quantum && calls == Calls(pos, |data|, s.quantum)
    ensures data != [] ==> pos + |data| <= u.size
    ensures s.size <= u.size
    ensures pos <= o < pos + |data| ==> Peek(u, o) == Some(data[o - pos])
    ensures !(pos <= o < pos + |data|) && Peek(s, o).Some? ==> Peek(u, o) == Peek(s, o)
    decreases |data|
  {
    hide Peek, Writes, Wf, Chunk;
    if data == [] {
    } else {
      var n: nat, t :| Writes(s, pos, data, n, t) && 0 < n <= |data| && Wf(t)
                  && WritesAll(t, pos + n, data[n..], calls - 1, u);
      WritesFacts(s, pos, data, n, t, o);
      CallsStep(pos, |data|, s.quantum);
      WritesAllFacts(t, pos + n, data[n..], calls - 1, u, o);
    }
  }

  /** car_read repeated until `n` bytes have come or one read gives none: bytes and calls. */
  ghost function ReadAll(s: Store, pos: nat, n: nat): (seq<byte>, nat)
    requires Wf(s)
    decreases n
  {
    if n == 0 then ([], 0)
    else
      var r := ReadBytes(s, pos, n);
      ReadPeek(s, pos, n, 0);
      if r == [] then ([], 1)
      else
        var (rest, calls) := ReadAll(s, pos + |r|, n - |r|);
        (r + rest, calls + 1)
  }

  ghost predicate HoldsAt(s: Store, pos: nat, data: seq<byte>)
    requires Wf(s)
  {
    pos + |data| <= s.size && forall i :: 0 <= i < |data| ==> Peek(s, pos + i) == Some(data[i])
  }

  lemma HoldsLater(s: Store, pos: nat, data: seq<byte>, k: nat)
    requires Wf(s) && HoldsAt(s, pos, data) && k <= |data|
    ensures HoldsAt(s, pos + k, data[k..])
  {
    forall i | 0 <= i < |data[k..]| ensures Peek(s, pos + k + i) == Some(data[k..][i]) {
      assert Peek(s, pos + (k + i)) == Some(data[k + i]);
    }
  }

  lemma ReadReturnsChunk(s: Store, pos: nat, data: seq<byte>)
    requires Wf(s) && HoldsAt(s, pos, data) && data != []
    ensures Chunk(pos, |data|, s.quantum) <= |data|
    ensures ReadBytes(s, pos, |data|) == data[..Chunk(pos, |data|, s.quantum)]
  {
    assert Peek(s, pos + 0) == Some(data[0]);
    ReadPeek(s, pos, |data|, 0);
    var r := ReadBytes(s, pos, |data|);
    forall i | 0 <= i < |r| ensures r[i] == data[i] {
      ReadPeek(s, pos, |data|, i);
    }
  }

  lemma {:induction false} ReadAllReturns(s: Store, pos: nat, data: seq<byte>)
    requires Wf(s) && HoldsAt(s, pos, data)
    ensures ReadAll(s, pos, |data|) == (data, Calls(pos, |data|, s.quantum))
    decreases |data|
  {
    hide Peek, ReadBytes, HoldsAt, Calls;
    CallsOfNothing(pos, s.quantum);
    if data == [] {
    } else {
      var k := Chunk(pos, |data|, s.quantum);
      ReadReturnsChunk(s, pos, data);
      CallsStep(pos, |data|, s.quantum);
      HoldsLater(s, pos, data, k);
      ReadAllReturns(s, pos + k, data[k..]);
      assert data[..k] + data[k..] == data;
    }
  }

  /** Round trip: what was written comes back, in the same number of calls each way. */
  lemma RoundTrip(s: Store, pos: nat, data: seq<byte>, calls: nat, u: Store)
    requires Wf(s) && WritesAll(s, pos, data, calls, u)
    ensures calls == if data == [] then 0 else (pos % s.quantum + |data| - 1) / s.quantum + 1
    ensures Wf(u) && ReadAll(u, pos, |data|) == (data, calls)
  {
    hide Peek, WritesAll, Wf, ReadBytes;
    WritesAllFacts(s, pos, data, calls, u, 0);
    if data == [] {
    } else {
      forall i | 0 <= i < |data| ensures Peek(u, pos + i) == Some(data[i]) {
        WritesAllFacts(s, pos, data, calls, u, pos + i);
      }
      ReadAllReturns(u, pos, data);
    }
  }

  // ----- reading to the end

  /** Reads with any positive buffer sizes until one gives nothing. */
  ghost function Drain(s: Store, pos: nat, chunk: nat -> nat): seq<byte>
    requires Wf(s) && forall o :: chunk(o) > 0
    decreases s.size - pos
  {
    var r := ReadBytes(s, pos, chunk(pos));
    ReadPeek(s, pos, chunk(pos), 0);
    if r == [] then [] else r + Drain(s, pos + |r|, chunk)
  }

  lemma ReadStopsAtGap(s: Store, pos: nat, count: nat)
    requires Wf(s) && count > 0
    ensures ReadBytes(s, pos, count) == [] <==> pos >= s.size || Peek(s, pos).None?
    ensures ReadBytes(s, pos, count) != [] ==> pos + |ReadBytes(s, pos, count)| <= s.size
  {
    ReadPeek(s, pos, count, 0);
  }

  /** Reading ends, and has delivered exactly the offsets up to the first one that lies at the
      size or beyond, or in a quantum that was never allocated. */
  lemma {:induction false} DrainStopsAtFirstGap(s: Store, pos: nat, chunk: nat -> nat, i: nat)
    requires Wf(s) && forall o :: chunk(o) > 0
    ensures var d := Drain(s, pos, chunk);
      && (i < |d| ==> pos + i < s.size && Peek(s, pos + i) == Some(d[i]))
      && (pos + |d| >= s.size || Peek(s, pos + |d|).None?)
    decreases s.size - pos
  {
    hide Peek, ReadBytes, Wf;
    var r := ReadBytes(s, pos, chunk(pos));
    ReadStopsAtGap(s, pos, chunk(pos));
    if r == [] {
    } else {
      if i < |r| {
        ReadPeek(s, pos, chunk(pos), i);
      }
      DrainStopsAtFirstGap(s, pos + |r|, chunk, if i >= |r| then i - |r| else 0);
    }
  }
}
