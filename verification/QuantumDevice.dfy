/**
 The bare device of pod/driver/main.c: a linked list of quantum sets on the heap.  The
 ledgers `liveNodes`, `liveTables` and `liveBlocks` record what has been allocated and not
 yet freed; only the kmalloc and kfree methods change them.
 */
module QuantumDevices {
  import opened Bytes
  import opened Rings
  import opened Addressing
  import opened Stores

  class QNode {
    var data: array?<array?<byte>>
    var next: QNode?

    /** kmalloc and memset to zero */
    constructor ()
      ensures data == null && next == null
    {
      data, next := null, null;
    }
  }

  ghost predicate Injective<K, V>(m: map<K, V>) {
    forall k, l :: k in m && l in m && k != l ==> m[k] != m[l]
  }

  lemma ValuesAdd<K, V>(m: map<K, V>, k: K, v: V)
    requires k !in m
    ensures m[k := v].Values == m.Values + {v}
  {
    var n := m[k := v];
    forall x | x in m.Values + {v} ensures x in n.Values {
      if x in m.Values {
        var l :| l in m && m[l] == x;
        assert n[l] == x;
      } else {
        assert n[k] == x;
      }
    }
  }

  lemma ValuesRemove<K, V>(m: map<K, V>, k: K)
    requires k in m && Injective(m)
    ensures (m - {k}).Values == m.Values - {m[k]} && Injective(m - {k})
  {
    var n := m - {k};
    forall x | x in m.Values - {m[k]} ensures x in n.Values {
      var l :| l in m && m[l] == x;
      assert l in n && n[l] == x;
    }
  }

  type Tables = map<nat, array<array?<byte>>>
  type Blocks = map<(nat, nat), array<byte>>

  /** `part` is what `whole` holds for the items from `k` on. */
  ghost predicate TablesFrom(k: nat, part: Tables, whole: Tables) {
    && (forall i :: i in part <==> i in whole && k <= i)
    && forall i :: i in part ==> part[i] == whole[i]
  }

  ghost predicate BlocksFrom(k: nat, part: Blocks, whole: Blocks) {
    && (forall x :: x in part <==> x in whole && k <= x.0)
    && forall x :: x in part ==> part[x] == whole[x]
  }

  /** Each table entry points to its own quantum, if it has one. */
  ghost predicate Entries(ts: Tables, bs: Blocks, qset: nat)
    reads ts.Values
  {
    && (forall i :: i in ts ==> ts[i].Length == qset)
    && (forall i, j :: i in ts && 0 <= j < qset ==> ts[i][j] == if (i, j) in bs then bs[(i, j)] else null)
    && (forall k :: k in bs ==> k.0 in ts && k.1 < qset)
  }

  ghost predicate Quanta(bs: Blocks, quantum: nat) {
    Injective(bs) && forall k :: k in bs ==> bs[k].Length == quantum
  }

  ghost predicate Contents(bs: Blocks, bytes: map<(nat, nat), seq<byte>>)
    reads bs.Values
  {
    bytes.Keys == bs.Keys && forall k :: k in bs ==> bytes[k] == bs[k][..]
  }

  lemma AddTable(ts: Tables, bs: Blocks, qset: nat, i: nat, t: array<array?<byte>>)
    requires Entries(ts, bs, qset) && i !in ts && t.Length == qset && forall j :: 0 <= j < qset ==> t[j] == null
    ensures Entries(ts[i := t], bs, qset)
  {
  }

  lemma AddBlock(bs: Blocks, quantum: nat, k: (nat, nat), b: array<byte>, bytes: map<(nat, nat), seq<byte>>)
    requires Quanta(bs, quantum) && k !in bs && b !in bs.Values && b.Length == quantum && Contents(bs, bytes)
    ensures Quanta(bs[k := b], quantum) && Contents(bs[k := b], bytes[k := b[..]])
  {
    assert forall l :: l in bs ==> bs[l] in bs.Values;
  }

  method SetEntry(ghost ts: Tables, ghost bs: Blocks, ghost k: (nat, nat),
                  table: array<array?<byte>>, j: nat, b: array<byte>)
    requires Entries(ts, bs, table.Length) && Injective(ts)
    requires k.0 in ts && table == ts[k.0] && j == k.1 < table.Length && k !in bs
    modifies table
    ensures Entries(ts, bs[k := b], table.Length) && table[j] == b
  {
    table[j] := b;
    assert forall i :: i in ts && i != k.0 ==> ts[i] != table;
  }

  class Device {
    var data: QNode?
    var quantum: nat
    var qset: nat
    var size: nat

    ghost var nodes: seq<QNode>
    ghost var tables: Tables
    ghost var blocks: Blocks
    ghost var store: Store

    ghost var liveNodes: set<QNode>
    ghost var liveTables: set<array<array?<byte>>>
    ghost var liveBlocks: set<array<byte>>

    ghost predicate ChainOk()
      reads this`data, this`nodes, nodes`next
    {
      && data == (if nodes == [] then null else nodes[0])
      && (forall i :: 0 <= i < |nodes| ==> nodes[i].next == if i + 1 < |nodes| then nodes[i + 1] else null)
      && (forall i, j :: 0 <= i < j < |nodes| ==> nodes[i] != nodes[j])
    }

    /** Each item points to its own table, if it has one. */
    ghost predicate TablesOk()
      reads this`nodes, this`tables, this`qset, nodes`data
    {
      && (forall i :: 0 <= i < |nodes| ==> nodes[i].data == if i in tables then tables[i] else null)
      && (forall i :: i in tables ==> i < |nodes| && tables[i].Length == qset)
      && Injective(tables)
    }

    /** What is allocated and not freed is exactly what can be reached from `data`. */
    ghost predicate LedgerOk()
      reads this`liveNodes, this`liveTables, this`liveBlocks, this`nodes, this`tables, this`blocks
    {
      && liveNodes == (set n | n in nodes)
      && liveTables == tables.Values
      && liveBlocks == blocks.Values
    }

    /** The device as a value: its shape, and the bytes of its quanta. */
    ghost predicate ShapeOk()
      reads this`store, this`quantum, this`qset, this`size, this`nodes, this`tables
    {
      && Stores.Wf(store) && store.quantum == quantum && store.qset == qset && store.size == size
      && store.length == |nodes| && store.tables == tables.Keys
    }

    ghost predicate Valid()
      reads this, nodes, tables.Values, blocks.Values
    {
      && ChainOk() && TablesOk() && LedgerOk() && ShapeOk()
      && Entries(tables, blocks, qset) && Quanta(blocks, quantum) && Contents(blocks, store.blocks)
    }

    constructor (quantum: nat, qset: nat)
      requires 0 < quantum && 0 < qset
      ensures Valid() && store == Empty(quantum, qset)
    {
      data, this.quantum, this.qset, size := null, quantum, qset, 0;
      nodes, tables, blocks, store := [], map[], map[], Empty(quantum, qset);
      liveNodes, liveTables, liveBlocks := {}, {}, {};
    }

    // ----- the allocator

    method KmallocNode(grants: bool) returns (n: QNode?)
      modifies this`liveNodes
      ensures n == null <==> !grants
      ensures n != null ==> fresh(n) && n.data == null && n.next == null
      ensures liveNodes == if n == null then old(liveNodes) else old(liveNodes) + {n}
    {
      n := null;
      if grants {
        n := new QNode();
        liveNodes := liveNodes + {n};
      }
    }

    method KmallocTable(grants: bool) returns (t: array?<array?<byte>>)
      modifies this`liveTables
      ensures t == null <==> !grants
      ensures t != null ==> fresh(t) && t.Length == qset && forall j :: 0 <= j < qset ==> t[j] == null
      ensures liveTables == if t == null then old(liveTables) else old(liveTables) + {t}
    {
      t := null;
      if grants {
        t := new array?<byte>[qset](_ => null);
        liveTables := liveTables + {t};
      }
    }

    /** A quantum is not cleared: what it holds is whatever the memory held. */
    method KmallocBlock(grants: bool) returns (b: array?<byte>)
      modifies this`liveBlocks
      ensures b == null <==> !grants
      ensures b != null ==> fresh(b) && b.Length == quantum
      ensures liveBlocks == if b == null then old(liveBlocks) else old(liveBlocks) + {b}
    {
      b := null;
      if grants {
        b := new byte[quantum];
        liveBlocks := liveBlocks + {b};
      }
    }

    // ----- growing the device

    lemma NextOf(i: nat)
      requires ChainOk() && i < |nodes|
      ensures nodes[i].next == if i + 1 < |nodes| then nodes[i + 1] else null
    {
    }

    /** Hangs an item in at the end of the list. */
    method Link(last: QNode?, n: QNode)
      requires ChainOk() && TablesOk() && last == (if nodes == [] then null else nodes[|nodes| - 1])
      requires n !in nodes && n.next == null && n.data == null
      modifies this`data, this`nodes, (if last == null then {} else {last})`next
      ensures ChainOk() && TablesOk() && nodes == old(nodes) + [n]
    {
      hide Injective;
      if last == null {
        data := n;
      } else {
        last.next := n;
      }
      nodes := nodes + [n];
    }

    /** Appends a cleared item after `last`, or as the head of an empty list. */
    method Append(last: QNode?, grants: bool) returns (n: QNode?)
      requires Valid() && last == if nodes == [] then null else nodes[|nodes| - 1]
      modifies this`data, this`liveNodes, this`nodes, this`store
      modifies (if last == null then {} else {last})`next
      ensures Valid() && tables == old(tables) && blocks == old(blocks)
      ensures n == null <==> !grants
      ensures n == null ==> nodes == old(nodes) && store == old(store)
      ensures n != null ==> fresh(n) && nodes == old(nodes) + [n]
      ensures n != null ==> store == old(store).(length := old(store).length + 1)
    {
      hide Stores.Wf, Entries, Quanta, Contents, ChainOk, TablesOk, ShapeOk;
      n := KmallocNode(grants);
      if n == null {
        return;
      }
      HangItem(last, n);
    }

    /** Hangs a cleared item in at the end. */
    method HangItem(last: QNode?, n: QNode)
      requires ChainOk() && TablesOk() && ShapeOk() && last == (if nodes == [] then null else nodes[|nodes| - 1])
      requires n !in nodes && n.next == null && n.data == null
      modifies this`data, this`nodes, this`store, (if last == null then {} else {last})`next
      ensures ChainOk() && TablesOk() && ShapeOk() && nodes == old(nodes) + [n]
      ensures store == old(store).(length := old(store).length + 1)
    {
      hide Stores.Wf, ChainOk, TablesOk;
      Link(last, n);
      LongerIsWf(store, store.length + 1);
      store := store.(length := store.length + 1);
    }

    /** car_follow: walks to item `n`, adding the items that are missing as long as the
        allocator grants them; null when it stops granting. */
    method Follow(n: nat, granted: nat) returns (qs: QNode?)
      requires Valid()
      modifies this`data, this`liveNodes, this`nodes, this`store, nodes`next
      ensures Valid() && tables == old(tables) && blocks == old(blocks)
      ensures old(nodes) <= nodes && forall i :: |old(nodes)| <= i < |nodes| ==> fresh(nodes[i])
      ensures store == Stores.Follow(old(store), n, Alloc(granted, true, true, []))
      ensures if n < |nodes| then qs == nodes[n] else qs == null
    {
      hide Stores.Wf, Entries, Quanta, Contents, TablesOk;
      var used := 0;
      qs := data;
      if qs == null {
        qs := Append(null, used < granted);
        if qs == null {
          return;
        }
        used := 1;
      }
      ghost var i := 0;
      var left := n;
      while left != 0
        invariant Valid() && tables == old(tables) && blocks == old(blocks)
        invariant 0 <= i <= n && left == n - i && i < |nodes| && qs == nodes[i] && used <= granted
        invariant old(nodes) <= nodes && forall j :: |old(nodes)| <= j < |nodes| ==> fresh(nodes[j])
        invariant |nodes| == |old(nodes)| + used && (used > 0 ==> |nodes| == i + 1)
        invariant store == old(store).(length := |nodes|)
        decreases left
      {
        left := left - 1;
        NextOf(i);
        if qs.next == null {
          qs := Append(qs, used < granted);
          if qs == null {
            return;
          }
          used := used + 1;
        } else {
          qs := qs.next;
        }
        i := i + 1;
      }
    }

    // ----- one quantum

    method SetTable(qs: QNode, ghost i: nat, t: array<array?<byte>>)
      requires ChainOk() && TablesOk() && i < |nodes| && qs == nodes[i] && i !in tables
      requires t !in tables.Values && t.Length == qset
      modifies this`tables, qs`data
      ensures TablesOk() && tables == old(tables)[i := t] && qs.data == t
    {
      qs.data := t;
      tables := tables[i := t];
      assert forall k :: k in tables && k != i ==> old(tables)[k] == tables[k] && tables[k] in old(tables).Values;
    }

    method MakeTable(qs: QNode, ghost i: nat, grants: bool) returns (t: array?<array?<byte>>)
      requires Valid() && i < |nodes| && qs == nodes[i] && i !in tables
      modifies this`tables, this`liveTables, this`store, qs`data
      ensures Valid() && nodes == old(nodes) && blocks == old(blocks)
      ensures t == null <==> !grants
      ensures t == null ==> tables == old(tables) && store == old(store)
      ensures t != null ==> fresh(t) && qs.data == t && tables == old(tables)[i := t]
      ensures t != null ==> store == old(store).(tables := old(store).tables + {i})
    {
      hide Stores.Wf, Entries, Quanta, Contents, ChainOk, TablesOk, Injective;
      t := KmallocTable(grants);
      if t == null {
        return;
      }
      HangTable(qs, i, t);
    }

    /** Hangs a fresh table in under item `i`. */
    method HangTable(qs: QNode, ghost i: nat, t: array<array?<byte>>)
      requires ChainOk() && TablesOk() && ShapeOk() && Entries(tables, blocks, qset)
      requires i < |nodes| && qs == nodes[i] && i !in tables
      requires t !in tables.Values && t.Length == qset && forall j :: 0 <= j < qset ==> t[j] == null
      modifies this`tables, this`store, qs`data
      ensures TablesOk() && ShapeOk() && Entries(tables, blocks, qset)
      ensures tables == old(tables)[i := t] && tables.Values == old(tables).Values + {t} && qs.data == t
      ensures store == old(store).(tables := old(store).tables + {i})
    {
      hide Stores.Wf, Entries, ChainOk, TablesOk, Injective;
      ValuesAdd(tables, i, t);
      AddTable(tables, blocks, qset, i, t);
      SetTable(qs, i, t);
      TableIsWf(store, i);
      store := store.(tables := store.tables + {i});
    }

    lemma TableFacts(i: nat)
      requires TablesOk() && i in tables
      ensures Injective(tables) && tables[i].Length == qset && i < |nodes| && nodes[i].data == tables[i]
    {
    }

    method MakeBlock(ghost i: nat, table: array<array?<byte>>, j: nat, grants: bool)
      returns (b: array?<byte>, ghost content: seq<byte>)
      requires Valid() && i in tables && table == tables[i] && j < qset && (i, j) !in blocks
      modifies this`blocks, this`liveBlocks, this`store, table
      ensures Valid() && |content| == quantum
      ensures b == null <==> !grants
      ensures b == null ==> blocks == old(blocks) && store == old(store)
      ensures b != null ==> fresh(b) && table[j] == b && blocks == old(blocks)[(i, j) := b]
      ensures b != null ==> store == old(store).(blocks := old(store).blocks[(i, j) := content])
    {
      hide Stores.Wf, Entries, Quanta, Contents, ChainOk, TablesOk, Injective;
      TableFacts(i);
      b := KmallocBlock(grants);
      content := seq(quantum, _ => 0);
      if b == null {
        return;
      }
      content := HangBlock(i, table, j, b);
    }

    /** Hangs a fresh quantum in under slot `j` of item `i`. */
    method HangBlock(ghost i: nat, table: array<array?<byte>>, j: nat, b: array<byte>)
      returns (ghost content: seq<byte>)
      requires ShapeOk() && Entries(tables, blocks, qset) && Quanta(blocks, quantum) && Contents(blocks, store.blocks)
      requires Injective(tables) && i in tables && i < |nodes| && table == tables[i] && table.Length == qset && j < qset
      requires (i, j) !in blocks && b !in blocks.Values && b.Length == quantum
      modifies this`blocks, this`store, table
      ensures ShapeOk() && Entries(tables, blocks, qset) && Quanta(blocks, quantum) && Contents(blocks, store.blocks)
      ensures |content| == quantum && table[j] == b && blocks == old(blocks)[(i, j) := b]
      ensures blocks.Values == old(blocks).Values + {b}
      ensures store == old(store).(blocks := old(store).blocks[(i, j) := content])
    {
      hide Stores.Wf, Entries, Quanta, Contents, Injective;
      content := b[..];
      ValuesAdd(blocks, (i, j), b);
      AddBlock(blocks, quantum, (i, j), b, store.blocks);
      SetEntry(tables, blocks, (i, j), table, j, b);
      BlockIsWf(store, (i, j), content);
      blocks := blocks[(i, j) := b];
      store := store.(blocks := store.blocks[(i, j) := content]);
    }

    method PutBytes(ghost k: (nat, nat), block: array<byte>, off: nat, bytes: seq<byte>,
                    ghost all: map<(nat, nat), seq<byte>>)
      requires Contents(blocks, all) && Injective(blocks) && k in blocks && block == blocks[k]
      requires off + |bytes| <= block.Length
      modifies block
      ensures Contents(blocks, all[k := Overwrite(all[k], off, bytes)])
    {
      CopyInto(block, off, bytes);
      assert forall l :: l in blocks && l != k ==> blocks[l] != block;
    }

    method CopyFrom(ghost k: (nat, nat), block: array<byte>, off: nat, bytes: seq<byte>)
      requires Valid() && k in blocks && block == blocks[k] && off + |bytes| <= quantum
      modifies block, this`store
      ensures Valid() && nodes == old(nodes) && store == Fill(old(store), k, off, bytes)
    {
      hide Stores.Wf, TablesOk, ChainOk, Entries, Contents, Injective;
      BlockLength(k);
      FillKeepsWf(store, k, off, bytes);
      PutBytes(k, block, off, bytes, store.blocks);
      store := Fill(store, k, off, bytes);
    }

    lemma BlockLength(k: (nat, nat))
      requires Valid() && k in blocks
      ensures k in store.blocks && |store.blocks[k]| == blocks[k].Length == quantum && k.0 < |nodes| && k.1 < qset
      ensures nodes[k.0].data == tables[k.0] && nodes[k.0].data[k.1] == blocks[k]
    {
    }

    lemma NodeFacts(i: nat)
      requires Valid() && i < |nodes|
      ensures nodes[i].data == if i in tables then tables[i] else null
    {
    }

    lemma Unreached(i: nat, j: nat)
      requires Valid()
      ensures i >= |nodes| ==> i !in tables
      ensures i !in tables ==> (i, j) !in blocks
      ensures (i, j) in store.blocks <==> (i, j) in blocks
    {
    }

    lemma EntryFacts(i: nat, j: nat)
      requires Valid() && i in tables && j < qset
      ensures tables[i].Length == qset && tables[i][j] == if (i, j) in blocks then blocks[(i, j)] else null
      ensures (i, j) in store.blocks <==> (i, j) in blocks
    {
    }

    /** The block for a slot of an item, making the item, its table and the block as needed; null
        as soon as the allocator refuses one of them. */
    method Prepare(item: nat, slot: nat, granted: nat, grantTable: bool, grantBlock: bool)
      returns (block: array?<byte>, ghost a: Alloc)
      requires Valid() && slot < qset
      modifies this`data, this`nodes, this`tables, this`blocks, this`store
      modifies this`liveNodes, this`liveTables, this`liveBlocks, nodes, tables.Values
      ensures Valid() && a == Alloc(granted, grantTable, grantBlock, a.content) && |a.content| == quantum
      ensures store == Stores.Prepare(old(store), (item, slot), a)
      ensures block == if (item, slot) in blocks then blocks[(item, slot)] else null
      ensures block == null <==> (item, slot) !in store.blocks
      ensures block != null && !fresh(block) ==> block in old(blocks).Values
    {
      hide Stores.Wf, Entries, Quanta, Contents, ChainOk, TablesOk, LedgerOk, Injective;
      a := Alloc(granted, grantTable, grantBlock, seq(quantum, _ => 0));
      block := null;
      var dptr := Follow(item, granted);
      Unreached(item, slot);
      if dptr == null {
        return;
      }
      NodeFacts(item);
      var table := dptr.data;
      if table == null {
        table := MakeTable(dptr, item, grantTable);
        if table == null {
          return;
        }
      }
      EntryFacts(item, slot);
      block := table[slot];
      if block == null {
        ghost var content;
        block, content := MakeBlock(item, table, slot, grantBlock);
        a := Alloc(granted, grantTable, grantBlock, content);
      }
    }

    // ----- the calls

    lemma Positive()
      requires Valid()
      ensures 0 < quantum == store.quantum && 0 < qset == store.qset && store.size == size && store.length == |nodes|
      ensures Stores.Wf(store)
    {
    }

    /** The tail of a successful write: the file size follows the position. */
    method RaiseSize(fpos: nat)
      requires Valid() && fpos <= store.length * (store.quantum * store.qset)
      modifies this`size, this`store
      ensures Valid() && store == Raise(old(store), fpos)
    {
      hide Entries, Quanta, Contents, ChainOk, TablesOk, LedgerOk;
      if size < fpos {
        size := fpos;
        store := store.(size := fpos);
      }
    }

    /** The two divisions that open both read and write. */
    method Locate(pos: nat) returns (item: nat, sPos: nat, qPos: nat)
      requires Valid()
      ensures 0 < quantum && 0 < qset && sPos < qset && qPos < quantum
      ensures (item, sPos) == Key(store, pos) && qPos == Off(store, pos)
    {
      Positive();
      Split(pos, quantum, qset);
      var itemsize := quantum * qset;
      var rest := pos % itemsize;
      item, sPos, qPos := pos / itemsize, rest / quantum, rest % quantum;
    }

    /** A write of `buf` at `pos`: the answer and the device afterwards are those of `WriteResult`
        and `AfterWrite`, for the answers the allocator gave and the bytes a faulting copy left. */
    method Write(pos: nat, buf: seq<byte>, granted: nat, grantTable: bool, grantBlock: bool,
                 faults: bool, junk: seq<byte>)
      returns (r: Result, fpos: nat, ghost a: Alloc)
      requires Valid()
      modifies this, nodes, tables.Values, blocks.Values
      ensures Valid() && quantum == old(quantum) && qset == old(qset)
      ensures a == Alloc(granted, grantTable, grantBlock, a.content) && |a.content| == quantum
      ensures r == WriteResult(old(store), pos, buf, a, faults)
      ensures store == AfterWrite(old(store), pos, buf, a, faults, junk)
      ensures fpos == if r.Wrote? then pos + r.count else pos
    {
      hide Stores.Wf, Valid, Stores.Prepare, AfterWrite, WriteResult, Key, Off, Raise, Overwrite;
      fpos := pos;
      Positive();
      ghost var s := store;
      var item, sPos, qPos := Locate(pos);
      var block;
      block, a := Prepare(item, sPos, granted, grantTable, grantBlock);
      WriteCases(s, pos, buf, a, faults, junk);
      if block == null {
        return NoMem, pos, a;
      }
      var count := Min(|buf|, quantum - qPos);
      if faults {
        CopyFrom((item, sPos), block, qPos, junk[..Min(count, |junk|)]);
        return Fault, pos, a;
      }
      CopyFrom((item, sPos), block, qPos, buf[..count]);
      RaiseSize(pos + count);
      r, fpos := Wrote(count), pos + count;
    }

    /** A read below the size finds its item in the list already, so it allocates nothing. */
    lemma ReadFollowsOnly(pos: nat, granted: nat)
      requires Valid() && pos < size
      ensures Key(store, pos).0 < store.length
      ensures Stores.Follow(store, Key(store, pos).0, Alloc(granted, true, true, [])) == store
    {
      ItemBound(pos, quantum, qset, store.length);
    }

    lemma SameLedgers(was: seq<QNode>)
      requires Valid() && nodes == was
      ensures data == (if was == [] then null else was[0])
      ensures liveNodes == (set n | n in was) && liveTables == tables.Values && liveBlocks == blocks.Values
    {
    }

    method FollowBelowSize(pos: nat, item: nat, granted: nat) returns (qs: QNode)
      requires Valid() && pos < size && item == Key(store, pos).0
      modifies this`data, this`liveNodes, this`nodes, this`store, nodes`next
      ensures Valid() && unchanged(this) && item < |nodes| && qs == nodes[item]
    {
      hide Stores.Wf, Entries, Quanta, Contents, ChainOk, TablesOk, LedgerOk, Key;
      ReadFollowsOnly(pos, granted);
      SameLedgers(nodes);
      var q := Follow(item, granted);
      SameLedgers(old(nodes));
      qs := q;
    }

    /** A read hands out `ReadBytes`, and changes nothing but the file position. */
    method Read(pos: nat, count: nat, granted: nat, faults: bool) returns (faulted: bool, out: seq<byte>, fpos: nat)
      requires Valid()
      modifies this`data, this`liveNodes, this`nodes, this`store, nodes`next
      ensures Valid() && unchanged(this)
      ensures faulted <==> faults && pos < size && Key(store, pos) in store.blocks
      ensures out == if faulted then [] else ReadBytes(old(store), pos, count)
      ensures fpos == pos + |out|
    {
      hide Stores.Wf, Valid, Key, Off, ReadBytes;
      faulted, out, fpos := false, [], pos;
      Positive();
      ReadCases(store, pos, count);
      if pos >= size {
        return;
      }
      var n := if pos + count > size then size - pos else count;
      var item, sPos, qPos := Locate(pos);
      var dptr := FollowBelowSize(pos, item, granted);
      Unreached(item, sPos);
      NodeFacts(item);
      if dptr.data == null {
        return;
      }
      EntryFacts(item, sPos);
      var block := dptr.data[sPos];
      if block == null {
        return;
      }
      BlockLength((item, sPos));
      n := Min(n, quantum - qPos);
      if faults {
        return true, [], pos;
      }
      BlockBytes((item, sPos));
      assert block[..][qPos..qPos + n] == block[qPos..qPos + n];
      out := block[qPos..qPos + n];
      fpos := pos + n;
    }

    lemma BlockBytes(k: (nat, nat))
      requires Valid() && k in blocks
      ensures k in store.blocks && store.blocks[k] == blocks[k][..]
    {
    }

    /** car_llseek, with -22 for EINVAL; a refused seek leaves the position. */
    method Llseek(cur: nat, off: int, whence: int) returns (code: int, fpos: nat)
      requires Valid()
      ensures var t := SeekTo(store.size, cur, off, whence);
        code == (if t.Some? then t.value else -22) && fpos == if t.Some? then t.value else cur
    {
      Positive();
      var newpos: int;
      match whence {
        case 0 => newpos := off;
        case 1 => newpos := cur + off;
        case 2 => newpos := size + off;
        case _ => return -22, cur;
      }
      if newpos < 0 {
        return -22, cur;
      }
      return newpos, newpos;
    }

    // ----- car_trim

    method KfreeNode(n: QNode)
      requires n in liveNodes
      modifies this`liveNodes
      ensures liveNodes == old(liveNodes) - {n}
    {
      liveNodes := liveNodes - {n};
    }

    method KfreeTable(t: array<array?<byte>>)
      requires t in liveTables
      modifies this`liveTables
      ensures liveTables == old(liveTables) - {t}
    {
      liveTables := liveTables - {t};
    }

    /** kfree of a null pointer does nothing. */
    method KfreeBlock(b: array?<byte>)
      requires b == null || b in liveBlocks
      modifies this`liveBlocks
      ensures liveBlocks == if b == null then old(liveBlocks) else old(liveBlocks) - {b}
    {
      if b != null {
        liveBlocks := liveBlocks - {b};
      }
    }

    /** The inner loop: the blocks of item `k`, each freed once. */
    method FreeEntries(table: array<array?<byte>>, ghost k: nat, ghost bs: Blocks) returns (ghost left: Blocks)
      requires table.Length == qset && liveBlocks == bs.Values && Injective(bs)
      requires forall j :: 0 <= j < qset ==> table[j] == if (k, j) in bs then bs[(k, j)] else null
      requires forall x :: x in bs ==> x.1 < qset
      modifies this`liveBlocks
      ensures liveBlocks == left.Values && Injective(left)
      ensures forall x :: x in left <==> x in bs && x.0 != k
      ensures forall x :: x in left ==> left[x] == bs[x]
    {
      left := bs;
      var i := 0;
      while i < qset
        invariant i <= qset && liveBlocks == left.Values && Injective(left)
        invariant forall x :: x in left <==> x in bs && (x.0 != k || x.1 >= i)
        invariant forall x :: x in left ==> left[x] == bs[x]
      {
        ghost var x := (k, i);
        if x in left {
          ValuesRemove(left, x);
          assert left[x] in left.Values;
        }
        KfreeBlock(table[i]);
        if x in left {
          left := left - {x};
        }
        i := i + 1;
      }
    }

    /** From item `k` on nothing has been freed yet: `ts` and `bs` are the tables and blocks left. */
    ghost predicate Left(k: nat, ts: Tables, bs: Blocks)
      reads this`liveNodes, this`liveTables, this`liveBlocks, this`nodes, this`tables, this`blocks, nodes`data
    {
      && k <= |nodes|
      && (forall i :: k <= i < |nodes| ==> nodes[i].data == if i in ts then ts[i] else null)
      && liveNodes == (set n | n in nodes[k..])
      && liveTables == ts.Values && Injective(ts) && TablesFrom(k, ts, tables)
      && liveBlocks == bs.Values && Injective(bs) && BlocksFrom(k, bs, blocks)
    }

    /** The body of the outer loop: the blocks of one item, its table, and then the item itself. */
    method FreeItem(dptr: QNode, ghost k: nat, ghost ts: Tables, ghost bs: Blocks)
      returns (next: QNode?, ghost ts': Tables, ghost bs': Blocks)
      requires Left(k, ts, bs) && k < |nodes| && dptr == nodes[k] && forall i :: k < i < |nodes| ==> nodes[i] != dptr
      requires Entries(tables, blocks, qset)
      modifies this`liveNodes, this`liveTables, this`liveBlocks, dptr`data
      ensures Left(k + 1, ts', bs') && next == dptr.next
    {
      ts', bs' := ts, bs;
      if dptr.data != null {
        bs' := FreeEntries(dptr.data, k, bs);
        assert ts[k] in ts.Values;
        KfreeTable(dptr.data);
        dptr.data := null;
        ts' := ts - {k};
        ValuesRemove(ts, k);
      }
      next := dptr.next;
      KfreeNode(dptr);
    }

    /** Frees every node, table and quantum exactly once and leaves the empty device. */
    method Trim(carQuantum: nat, carQset: nat)
      requires Valid() && 0 < carQuantum && 0 < carQset
      modifies this, nodes`data
      ensures Valid() && store == Empty(carQuantum, carQset)
      ensures liveNodes == {} && liveTables == {} && liveBlocks == {}
    {
      hide Stores.Wf, Entries, Quanta, Contents, TablesOk, LedgerOk, ShapeOk, Left, Injective;
      NothingFreed();
      ghost var ts, bs, k := tables, blocks, 0;
      var dptr := data;
      while dptr != null
        invariant unchanged(this`nodes) && unchanged(this`tables) && unchanged(this`blocks) && unchanged(this`qset)
        invariant ChainOk() && Entries(tables, blocks, qset) && Left(k, ts, bs)
        invariant k <= |nodes| && dptr == if k < |nodes| then nodes[k] else null
        decreases |nodes| - k
      {
        NextOf(k);
        dptr, ts, bs := FreeItem(dptr, k, ts, bs);
        k := k + 1;
      }
      assert k == |nodes|;
      NothingLeft(ts, bs);
      Clear(carQuantum, carQset);
    }

    /** The tail of car_trim, when nothing is allocated any more. */
    method Clear(carQuantum: nat, carQset: nat)
      requires 0 < carQuantum && 0 < carQset && liveNodes == {} && liveTables == {} && liveBlocks == {}
      modifies this`data, this`quantum, this`qset, this`size, this`nodes, this`tables, this`blocks, this`store
      ensures Valid() && store == Empty(carQuantum, carQset)
    {
      size, quantum, qset, data := 0, carQuantum, carQset, null;
      nodes, tables, blocks, store := [], map[], map[], Empty(carQuantum, carQset);
      EmptyIsValid();
    }

    lemma NothingFreed()
      requires Valid()
      ensures Left(0, tables, blocks) && Entries(tables, blocks, qset)
      ensures forall i :: i in tables ==> i < |nodes|
    {
      assert nodes[0..] == nodes;
    }

    lemma EmptyIsValid()
      requires 0 < quantum && 0 < qset && size == 0 && data == null && store == Empty(quantum, qset)
      requires nodes == [] && tables == map[] && blocks == map[]
      requires liveNodes == {} && liveTables == {} && liveBlocks == {}
      ensures Valid()
    {
    }

    lemma NothingLeft(ts: Tables, bs: Blocks)
      requires Left(|nodes|, ts, bs) && Entries(tables, blocks, qset) && forall i :: i in tables ==> i < |nodes|
      ensures liveNodes == {} && liveTables == {} && liveBlocks == {}
    {
    }

    /** A write-only open empties the device; any other leaves it alone. */
    method Open(writeOnly: bool, carQuantum: nat, carQset: nat)
      requires Valid() && 0 < carQuantum && 0 < carQset
      modifies this, nodes`data
      ensures Valid() && store == if writeOnly then Empty(carQuantum, carQset) else old(store)
    {
      if writeOnly {
        Trim(carQuantum, carQset);
      }
    }
  }
}
