/**
 The quantum-set store of pod/driver/main.c as a value: which list items exist, which of
 them have a table, and the bytes of every quantum that has been allocated.
 */
module Stores {
  import opened Bytes
  import opened Addressing
  import opened Rings

  datatype Store = Store(quantum: nat, qset: nat, length: nat, tables: set<nat>,
                         blocks: map<(nat, nat), seq<byte>>, size: nat)

  ghost predicate Wf(s: Store) {
    && 0 < s.quantum && 0 < s.qset
    && (forall i :: i in s.tables ==> i < s.length)
    && (forall k :: k in s.blocks ==> k.0 in s.tables && k.1 < s.qset && |s.blocks[k]| == s.quantum)
    && s.size <= s.length * (s.quantum * s.qset)
  }

  ghost predicate Sized(s: Store) {
    0 < s.quantum && 0 < s.qset
  }

  function Empty(quantum: nat, qset: nat): Store {
    Store(quantum, qset, 0, {}, map[], 0)
  }

  function Key(s: Store, o: nat): (nat, nat)
    requires Sized(s)
  {
    (Item(o, s.quantum, s.qset), Slot(o, s.quantum, s.qset))
  }

  function Off(s: Store, o: nat): nat
    requires Sized(s)
  {
    Byte(o, s.quantum, s.qset)
  }

  /** The byte stored for an offset, if its quantum has been allocated. */
  ghost function Peek(s: Store, o: nat): Option<byte>
    requires Wf(s)
  {
    Split(o, s.quantum, s.qset);
    if Key(s, o) in s.blocks then Some(s.blocks[Key(s, o)][Off(s, o)]) else None
  }

  // ----- the calls

  /** What one car_read hands out when the user copy succeeds. */
  function ReadBytes(s: Store, pos: nat, count: nat): (r: seq<byte>)
    requires Wf(s)
  {
    if pos >= s.size || Key(s, pos) !in s.blocks then []
    else
      Split(pos, s.quantum, s.qset);
      var n := Min(Min(count, s.size - pos), s.quantum - Off(s, pos));
      s.blocks[Key(s, pos)][Off(s, pos)..Off(s, pos) + n]
  }

  /** How the allocator answers during one call: how many list nodes it grants, whether it
      grants a table and a quantum, and what a fresh quantum holds. */
  datatype Alloc = Alloc(nodes: nat, table: bool, block: bool, content: seq<byte>)

  /** car_follow: the list is grown up to item `n`, or as far as the allocator goes. */
  function Follow(s: Store, n: nat, a: Alloc): Store {
    s.(length := if s.length + a.nodes > n then (if s.length > n then s.length else n + 1) else s.length + a.nodes)
  }

  datatype Result = NoMem | Fault | Wrote(count: nat)

  /** How far the preparation of a write gets: node, then table, then quantum. */
  function Prepare(s: Store, k: (nat, nat), a: Alloc): Store {
    var s1 := Follow(s, k.0, a);
    if k.0 >= s1.length then s1
    else if k.0 !in s1.tables && !a.table then s1
    else
      var s2 := s1.(tables := s1.tables + {k.0});
      if k !in s2.blocks && a.block && |a.content| == s.quantum then s2.(blocks := s2.blocks[k := a.content]) else s2
  }

  function Transfer(s: Store, pos: nat, len: nat): nat
    requires Sized(s)
  {
    Split(pos, s.quantum, s.qset);
    Min(len, s.quantum - Off(s, pos))
  }

  function WriteResult(s: Store, pos: nat, data: seq<byte>, a: Alloc, faults: bool): Result
    requires Sized(s)
  {
    if Key(s, pos) !in Prepare(s, Key(s, pos), a).blocks then NoMem
    else if faults then Fault
    else Wrote(Transfer(s, pos, |data|))
  }

  function Fill(s: Store, k: (nat, nat), off: nat, bytes: seq<byte>): Store
    requires k in s.blocks && off + |bytes| <= |s.blocks[k]|
  {
    s.(blocks := s.blocks[k := Overwrite(s.blocks[k], off, bytes)])
  }

  function Raise(s: Store, end: nat): Store {
    if s.size < end then s.(size := end) else s
  }

  /** car_write; `junk` is what a faulting user copy leaves at the front of the range. */
  function AfterWrite(s: Store, pos: nat, data: seq<byte>, a: Alloc, faults: bool, junk: seq<byte>): Store
    requires Wf(s)
  {
    var k := Key(s, pos);
    var p := Prepare(s, k, a);
    if k !in p.blocks then p
    else
      Split(pos, s.quantum, s.qset);
      PrepareKeeps(s, k, a);
      var n := Transfer(s, pos, |data|);
      if faults then Fill(p, k, Off(s, pos), junk[..Min(n, |junk|)])
      else Raise(Fill(p, k, Off(s, pos), data[..n]), pos + n)
  }

  /** car_llseek: a bad whence or a negative target is refused. */
  function SeekTo(size: nat, cur: nat, off: int, whence: int): Option<nat> {
    if whence !in {0, 1, 2} then None
    else
      var target := if whence == 0 then off else if whence == 1 then cur + off else size + off;
      if target < 0 then None else Some(target)
  }

  /** The three ways to seek agree with one another, seeks by an offset add up, and a seek is
      undone by the opposite one; an absolute seek depends on neither size nor position; exactly
      the negative targets and the unknown modes are refused. */
  lemma SeekLaws(size: nat, cur: nat, a: int, b: int)
    ensures forall size', cur' :: SeekTo(size, cur, a, 0) == SeekTo(size', cur', a, 0)
    ensures SeekTo(size, cur, a, 0).None? <==> a < 0
    ensures a >= 0 ==> SeekTo(size, cur, a, 0) == SeekTo(size, a, 0, 1)
    ensures SeekTo(size, cur, a, 2).None? <==> size + a < 0
    ensures forall whence :: whence < 0 || whence > 2 ==> SeekTo(size, cur, a, whence).None?
    ensures SeekTo(size, cur, cur, 0) == SeekTo(size, cur, 0, 1) == Some(cur)
    ensures SeekTo(size, cur, a, 2) == SeekTo(size, size, a, 1)
    ensures SeekTo(size, cur, a, 1).Some? ==>
      var p := SeekTo(size, cur, a, 1).value;
      && SeekTo(size, p, b, 1) == SeekTo(size, cur, a + b, 1)
      && SeekTo(size, p, -a, 1) == Some(cur)
    ensures SeekTo(size, cur, a, 1).None? <==> cur + a < 0
  {
  }

  // ----- what every call keeps

  lemma LengthGrows(s: Store, length: nat)
    requires Wf(s) && s.length <= length
    ensures s.size <= length * (s.quantum * s.qset)
  {
    Grows(s.length, length, s.quantum * s.qset);
  }

  lemma LongerIsWf(s: Store, length: nat)
    requires Wf(s) && s.length <= length
    ensures Wf(s.(length := length))
  {
    LengthGrows(s, length);
  }

  lemma TableIsWf(s: Store, i: nat)
    requires Wf(s) && i < s.length
    ensures Wf(s.(tables := s.tables + {i}))
  {
  }

  lemma BlockIsWf(s: Store, k: (nat, nat), content: seq<byte>)
    requires Wf(s) && k.0 in s.tables && k.1 < s.qset && |content| == s.quantum
    ensures Wf(s.(blocks := s.blocks[k := content]))
  {
  }

  lemma PrepareKeeps(s: Store, k: (nat, nat), a: Alloc)
    requires Wf(s) && k.1 < s.qset
    ensures var p := Prepare(s, k, a);
      && Wf(p) && p.size == s.size && p.quantum == s.quantum && p.qset == s.qset
      && (forall x :: x in s.blocks ==> x in p.blocks && p.blocks[x] == s.blocks[x])
      && (forall x :: x in p.blocks && x !in s.blocks ==> x == k)
      && (k in p.blocks ==> k.0 < p.length)
  {
    LengthGrows(s, Prepare(s, k, a).length);
  }

  /** How far a preparation gets, for any answers of the allocator: which items, tables and quanta
      are there afterwards. */
  lemma PrepareOutcome(s: Store, k: (nat, nat), a: Alloc)
    requires Wf(s) && |a.content| == s.quantum
    ensures var p := Prepare(s, k, a);
      && s.length <= p.length <= s.length + a.nodes
      && (p.length > s.length ==> p.length <= k.0 + 1)
      && (k.0 < p.length || p.length == s.length + a.nodes)
      && p.tables == (if k.0 < p.length && a.table then s.tables + {k.0} else s.tables)
      && (k in p.blocks <==>
            k in s.blocks || (k.0 < s.length + a.nodes && (k.0 in s.tables || a.table) && a.block))
      && (k in p.blocks && k !in s.blocks ==> p.blocks[k] == a.content)
  {
  }

  /** A write fails for want of memory exactly if the quantum is not there yet and the allocator
      refuses an item, the table or the quantum that is missing; with memory, exactly if the user
      copy faults does it fail at all. */
  lemma WriteFailsIff(s: Store, pos: nat, data: seq<byte>, a: Alloc, faults: bool)
    requires Wf(s) && |a.content| == s.quantum
    ensures var k := Key(s, pos); var r := WriteResult(s, pos, data, a, faults);
      && (r.NoMem? <==>
            k !in s.blocks && (k.0 >= s.length + a.nodes || (k.0 !in s.tables && !a.table) || !a.block))
      && (r.Fault? <==> !r.NoMem? && faults)
  {
    PrepareOutcome(s, Key(s, pos), a);
  }

  lemma FillKeepsWf(s: Store, k: (nat, nat), off: nat, bytes: seq<byte>)
    requires Wf(s) && k in s.blocks && off + |bytes| <= s.quantum
    ensures Wf(Fill(s, k, off, bytes))
  {
  }

  lemma WriteKeepsWf(s: Store, pos: nat, data: seq<byte>, a: Alloc, faults: bool, junk: seq<byte>)
    requires Wf(s)
    ensures Wf(AfterWrite(s, pos, data, a, faults, junk))
    ensures AfterWrite(s, pos, data, a, faults, junk).quantum == s.quantum
    ensures AfterWrite(s, pos, data, a, faults, junk).qset == s.qset
  {
    var k := Key(s, pos);
    var p := Prepare(s, k, a);
    Split(pos, s.quantum, s.qset);
    PrepareKeeps(s, k, a);
    if k in p.blocks {
      var n := Transfer(s, pos, |data|);
      FillKeepsWf(p, k, Off(s, pos), junk[..Min(n, |junk|)]);
      FillKeepsWf(p, k, Off(s, pos), data[..n]);
      EndBound(pos, n, s.quantum, s.qset, p.length);
    }
  }

  /** The three ways a write can go, once the preparation is known. */
  lemma WriteCases(s: Store, pos: nat, data: seq<byte>, a: Alloc, faults: bool, junk: seq<byte>)
    requires Wf(s)
    ensures var k := Key(s, pos); var p := Prepare(s, k, a); var n := Min(|data|, s.quantum - Off(s, pos));
      var t := AfterWrite(s, pos, data, a, faults, junk); var r := WriteResult(s, pos, data, a, faults);
      if k !in p.blocks then t == p && r == NoMem
      else
        && |p.blocks[k]| == s.quantum && Off(s, pos) + n <= s.quantum
        && pos + n <= p.length * (p.quantum * p.qset)
        && (if faults then r == Fault && t == Fill(p, k, Off(s, pos), junk[..Min(n, |junk|)])
            else r == Wrote(n) && t == Raise(Fill(p, k, Off(s, pos), data[..n]), pos + n))
  {
    var k := Key(s, pos);
    var p := Prepare(s, k, a);
    Split(pos, s.quantum, s.qset);
    PrepareKeeps(s, k, a);
    if k in p.blocks {
      EndBound(pos, Transfer(s, pos, |data|), s.quantum, s.qset, p.length);
    }
  }

  /** The three ways a read can go. */
  lemma ReadCases(s: Store, pos: nat, count: nat)
    requires Wf(s)
    ensures var k := Key(s, pos); var r := ReadBytes(s, pos, count);
      if pos >= s.size || k !in s.blocks then r == []
      else
        Off(s, pos) < s.quantum && var n := Min(Min(count, s.size - pos), s.quantum - Off(s, pos));
        |s.blocks[k]| == s.quantum && Off(s, pos) + n <= s.quantum && r == s.blocks[k][Off(s, pos)..Off(s, pos) + n]
  {
    Split(pos, s.quantum, s.qset);
  }

  // ----- what a write does to the bytes of the file

  /** Filling part of the quantum of `pos` changes the bytes of that range and no other. */
  lemma FillPeek(s: Store, pos: nat, bytes: seq<byte>, o: nat)
    requires Wf(s) && Key(s, pos) in s.blocks && Off(s, pos) + |bytes| <= s.quantum
    ensures var t := Fill(s, Key(s, pos), Off(s, pos), bytes);
      && Wf(t)
      && Peek(t, o) == if pos <= o < pos + |bytes| then Some(bytes[o - pos]) else Peek(s, o)
  {
    var q, n := s.quantum, s.qset;
    FillKeepsWf(s, Key(s, pos), Off(s, pos), bytes);
    Split(pos, q, n);
    Split(o, q, n);
    SameQuantum(o, pos, q, n);
    if pos <= o < pos + |bytes| {
      WithinQuantum(pos, o - pos, q);
    } else if o / q == pos / q {
      OutsideRange(o, pos, |bytes|, q);
    }
  }

  /** Preparing a write may allocate the quantum of `pos`, and changes no byte that was there. */
  lemma PreparePeek(s: Store, pos: nat, a: Alloc, o: nat)
    requires Wf(s)
    ensures var p := Prepare(s, Key(s, pos), a);
      && Wf(p) && (Peek(s, o).Some? ==> Peek(p, o) == Peek(s, o))
      && (Peek(s, o).None? && Peek(p, o).Some? ==> o / s.quantum == pos / s.quantum)
  {
    Split(pos, s.quantum, s.qset);
    Split(o, s.quantum, s.qset);
    PrepareKeeps(s, Key(s, pos), a);
    SameQuantum(o, pos, s.quantum, s.qset);
  }

  /** A write that reports `n` bytes has stored exactly the first `n` of them; whatever a write
      reports, no byte outside its range changes. */
  lemma WritePeek(s: Store, pos: nat, data: seq<byte>, a: Alloc, faults: bool, junk: seq<byte>, o: nat)
    requires Wf(s)
    ensures var t := AfterWrite(s, pos, data, a, faults, junk); var r := WriteResult(s, pos, data, a, faults);
      && Wf(t)
      && (r.Wrote? && pos <= o < pos + r.count ==> Peek(t, o) == Some(data[o - pos]))
      && (Peek(s, o).Some? && !(pos <= o < pos + Transfer(s, pos, |data|)) ==> Peek(t, o) == Peek(s, o))
      && (r.NoMem? && Peek(s, o).Some? ==> Peek(t, o) == Peek(s, o))
      && (Peek(s, o).None? && Peek(t, o).Some? ==> o / s.quantum == pos / s.quantum)
  {
    var k := Key(s, pos);
    var p := Prepare(s, k, a);
    var n := Transfer(s, pos, |data|);
    WriteKeepsWf(s, pos, data, a, faults, junk);
    Split(pos, s.quantum, s.qset);
    PrepareKeeps(s, k, a);
    PreparePeek(s, pos, a, o);
    if k in p.blocks {
      var bytes := if faults then junk[..Min(n, |junk|)] else data[..n];
      FillPeek(p, pos, bytes, o);
      RaisePeek(Fill(p, k, Off(s, pos), bytes), AfterWrite(s, pos, data, a, faults, junk), o);
    }
  }

  lemma RaisePeek(s: Store, t: Store, o: nat)
    requires Wf(s) && Wf(t) && t == s.(size := t.size)
    ensures Peek(t, o) == Peek(s, o)
  {
  }

  /** A read hands out the stored bytes of consecutive offsets: as many as were asked for, but
      none beyond the size or the end of the quantum, and none at all from a hole. */
  lemma ReadPeek(s: Store, pos: nat, count: nat, i: nat)
    requires Wf(s)
    ensures var r := ReadBytes(s, pos, count);
      && |r| == (if pos < s.size && Peek(s, pos).Some?
                 then Min(Min(count, s.size - pos), s.quantum - pos % s.quantum) else 0)
      && (i < |r| ==> Peek(s, pos + i) == Some(r[i]))
  {
    Split(pos, s.quantum, s.qset);
    if i < |ReadBytes(s, pos, count)| {
      WithinQuantum(pos, i, s.quantum);
      Split(pos + i, s.quantum, s.qset);
      SameQuantum(pos + i, pos, s.quantum, s.qset);
    }
  }
}
